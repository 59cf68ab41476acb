/** The ranked list, page by page: ListFilmsByRating with its (rating, id) cursor, the
    repository call around it, and ToPaginatedResponse, which makes the next cursor. */
module Paging {
  import opened Tables
  import opened Elo
  import opened Catalogue
  import opened Engine
  import opened Preservation
  import opened Atomicity
  import opened Runs

  /** The columns of a film that ordering and cursors look at. */
  datatype Entry = Entry(id: int, rating: real)

  datatype PaginationParameters = PaginationParameters(size: int, lastSeenId: int, lastSeenRating: real)

  datatype PaginatedResponse = PaginatedResponse(films: seq<Entry>, next: PaginationParameters)

  /** ORDER BY rating DESC, id DESC; the cursor condition is the same comparison of rows. */
  predicate Before(a: Entry, b: Entry) {
    a.rating > b.rating || (a.rating == b.rating && a.id > b.id)
  }

  ghost predicate Sorted(xs: seq<Entry>) {
    forall i, j :: 0 <= i < j < |xs| ==> Before(xs[i], xs[j])
  }

  /** A film table in the order of the query: sorted, one entry an id, ids as in the schema. */
  ghost predicate IsIndex(xs: seq<Entry>) {
    && Sorted(xs)
    && (forall i, j :: 0 <= i < j < |xs| ==> xs[i].id != xs[j].id)
    && (forall i :: 0 <= i < |xs| ==> -0x8000_0000 <= xs[i].id <= MAX_INT32)
  }

  // ---------- the index of a film table ----------

  function InsertEntry(xs: seq<Entry>, e: Entry): seq<Entry> {
    if xs == [] || Before(e, xs[0]) then [e] + xs else [xs[0]] + InsertEntry(xs[1..], e)
  }

  ghost function Index(films: Films): seq<Entry>
    decreases |films|
  {
    if films.Keys == {} then []
    else
      HasElement(films.Keys);
      var id :| id in films.Keys;
      InsertEntry(Index(films - {id}), Entry(id, films[id].rating))
  }

  lemma {:induction false} InsertEntrySorts(xs: seq<Entry>, e: Entry)
    requires Sorted(xs) && forall x :: x in xs ==> x.id != e.id
    ensures Sorted(InsertEntry(xs, e))
    ensures forall x :: x in InsertEntry(xs, e) <==> x == e || x in xs
  {
    if xs != [] && !Before(e, xs[0]) {
      assert xs[0] in xs;
      InsertEntrySorts(xs[1..], e);
      var rest := InsertEntry(xs[1..], e);
      assert xs == [xs[0]] + xs[1..];
      forall i | 0 <= i < |rest| ensures Before(xs[0], rest[i]) {
        assert rest[i] in rest;
      }
    }
  }

  ghost predicate Lists(xs: seq<Entry>, films: Films) {
    forall e :: e in xs <==> e.id in films && films[e.id].rating == e.rating
  }

  /** Every film table has an index, and it lists exactly the films of the table. */
  lemma {:induction false} IndexIsSorted(films: Films)
    ensures Sorted(Index(films)) && Lists(Index(films), films)
    decreases |films|
  {
    if films.Keys != {} {
      HasElement(films.Keys);
      var id :| id in films.Keys
                && Index(films) == InsertEntry(Index(films - {id}), Entry(id, films[id].rating));
      IndexIsSorted(films - {id});
      InsertEntrySorts(Index(films - {id}), Entry(id, films[id].rating));
    }
  }

  lemma IndexIsIndex(films: Films)
    requires forall id :: id in films ==> -0x8000_0000 <= id <= MAX_INT32
    ensures IsIndex(Index(films)) && Lists(Index(films), films)
  {
    IndexIsSorted(films);
    var xs := Index(films);
    forall i, j | 0 <= i < j < |xs| ensures xs[i].id != xs[j].id {
      assert xs[i] in xs && xs[j] in xs;
    }
    forall i | 0 <= i < |xs| ensures -0x8000_0000 <= xs[i].id <= MAX_INT32 {
      assert xs[i] in xs;
    }
  }

  // ---------- one page ----------

  predicate Eligible(cursor: Option<Entry>, e: Entry) {
    cursor.None? || Before(cursor.value, e)
  }

  /** The first `limit` rows that come after the cursor. */
  function TakeAfter(xs: seq<Entry>, cursor: Option<Entry>, limit: nat): seq<Entry>
    decreases |xs|
  {
    if xs == [] || limit == 0 then []
    else if Eligible(cursor, xs[0]) then [xs[0]] + TakeAfter(xs[1..], cursor, limit - 1)
    else TakeAfter(xs[1..], cursor, limit)
  }

  /** A cursor id of zero means no cursor. */
  function CursorOf(pars: PaginationParameters): Option<Entry> {
    if pars.lastSeenId != 0 then Some(Entry(ToInt32(pars.lastSeenId), pars.lastSeenRating)) else None
  }

  /** The page query; a negative LIMIT is refused by the database. */
  function GetPage(index: seq<Entry>, pars: PaginationParameters): Result<seq<Entry>, Error> {
    if ToInt32(pars.size) < 0 then Failure(DatabaseFailure)
    else Success(TakeAfter(index, CursorOf(pars), ToInt32(pars.size)))
  }

  /** GetFilmsPaginatedByRating: the parameters, and the loop that collects the rows. */
  method GetFilmsPaginatedByRating(index: seq<Entry>, pars: PaginationParameters) returns (r: Result<seq<Entry>, Error>)
    ensures r == GetPage(index, pars)
  {
    var limit := ToInt32(pars.size);
    var cursor := None;
    if pars.lastSeenId != 0 {
      cursor := Some(Entry(ToInt32(pars.lastSeenId), pars.lastSeenRating));
    }
    if limit < 0 {
      return Failure(DatabaseFailure);
    }
    var films: seq<Entry> := [];
    var i := 0;
    while i < |index| && |films| < limit
      invariant 0 <= i <= |index| && |films| <= limit
      invariant TakeAfter(index, cursor, limit) == films + TakeAfter(index[i..], cursor, limit - |films|)
    {
      assert index[i..][1..] == index[i + 1..];
      if Eligible(cursor, index[i]) {
        films := films + [index[i]];
      }
      i := i + 1;
    }
    assert TakeAfter(index[i..], cursor, limit - |films|) == [];
    assert films + [] == films;
    r := Success(films);
  }

  function ToPaginatedResponse(size: int, films: seq<Entry>): PaginatedResponse {
    if films == [] then PaginatedResponse([], PaginationParameters(0, 0, 0.0))
    else
      var last := films[|films| - 1];
      PaginatedResponse(films, PaginationParameters(size, last.id, last.rating))
  }

  /** A page holds eligible rows of the table, sorted, and no more than the limit. */
  lemma {:induction false} PageRows(xs: seq<Entry>, cursor: Option<Entry>, limit: nat)
    requires Sorted(xs)
    ensures var page := TakeAfter(xs, cursor, limit);
            && Sorted(page) && |page| <= limit
            && (forall e :: e in page ==> e in xs && Eligible(cursor, e))
    decreases |xs|
  {
    if xs != [] && limit > 0 {
      var rest := xs[1..];
      var limit' := if Eligible(cursor, xs[0]) then limit - 1 else limit;
      PageRows(rest, cursor, limit');
      var page := TakeAfter(rest, cursor, limit');
      forall i | 0 <= i < |page| ensures Before(xs[0], page[i]) {
        assert page[i] in rest;
        var j :| 0 <= j < |rest| && rest[j] == page[i];
        assert xs[j + 1] == page[i];
      }
    }
  }

  /** A row a page leaves out is not eligible, or the page is full and ends before it. */
  lemma {:induction false} PageOmits(xs: seq<Entry>, cursor: Option<Entry>, limit: nat, e: Entry)
    requires Sorted(xs) && limit > 0
    requires e in xs && Eligible(cursor, e) && e !in TakeAfter(xs, cursor, limit)
    ensures |TakeAfter(xs, cursor, limit)| == limit && Before(TakeAfter(xs, cursor, limit)[limit - 1], e)
    decreases |xs|
  {
    var rest := xs[1..];
    assert xs == [xs[0]] + rest;
    if !Eligible(cursor, xs[0]) {
      PageOmits(rest, cursor, limit, e);
    } else if limit == 1 {
      var i :| 0 <= i < |xs| && xs[i] == e;
      assert TakeAfter(xs, cursor, limit) == [xs[0]];
      assert i != 0;
    } else {
      PageOmits(rest, cursor, limit - 1, e);
    }
  }

  // ---------- what a page shows ----------

  /** Sorted, in plain terms: best rated first, and of equally rated films the greater id. */
  lemma SortedIsBestFirst(xs: seq<Entry>)
    requires Sorted(xs)
    ensures forall i, j :: 0 <= i < j < |xs| ==>
              xs[i].rating > xs[j].rating || (xs[i].rating == xs[j].rating && xs[i].id > xs[j].id)
  {
  }

  /** The rows of a page: films of the table, best first, all ranked below the cursor. */
  lemma PageShows(index: seq<Entry>, pars: PaginationParameters, films: seq<Entry>)
    requires IsIndex(index) && GetPage(index, pars) == Success(films)
    ensures |films| <= ToInt32(pars.size)
    ensures forall i, j :: 0 <= i < j < |films| ==>
              films[i].rating > films[j].rating || (films[i].rating == films[j].rating && films[i].id > films[j].id)
    ensures forall e :: e in films ==>
              e in index
              && (pars.lastSeenId != 0 ==>
                    e.rating < pars.lastSeenRating
                    || (e.rating == pars.lastSeenRating && e.id < ToInt32(pars.lastSeenId)))
  {
    PageRows(index, CursorOf(pars), ToInt32(pars.size));
    SortedIsBestFirst(films);
  }

  /** What a page does not show although it ranks below the cursor: it ranks below the last
      row of a full page too. */
  lemma PageLeavesOut(index: seq<Entry>, pars: PaginationParameters, films: seq<Entry>, e: Entry)
    requires IsIndex(index) && GetPage(index, pars) == Success(films) && ToInt32(pars.size) >= 1
    requires e in index && e !in films
    requires pars.lastSeenId != 0 ==>
               e.rating < pars.lastSeenRating
               || (e.rating == pars.lastSeenRating && e.id < ToInt32(pars.lastSeenId))
    ensures |films| == ToInt32(pars.size)
    ensures var last := films[|films| - 1];
            e.rating < last.rating || (e.rating == last.rating && e.id < last.id)
  {
    PageOmits(index, CursorOf(pars), ToInt32(pars.size), e);
  }

  /** The first page begins with a film that no film out-rates. */
  lemma FirstPageLeads(index: seq<Entry>, pars: PaginationParameters, films: seq<Entry>)
    requires IsIndex(index) && GetPage(index, pars) == Success(films)
    requires index != [] && pars.lastSeenId == 0 && ToInt32(pars.size) >= 1
    ensures films != [] && forall e :: e in index ==> e.rating <= films[0].rating
  {
    TakesFirst(index, ToInt32(pars.size));
    SortedIsBestFirst(index);
  }

  lemma TakesFirst(xs: seq<Entry>, limit: nat)
    requires xs != [] && limit >= 1
    ensures TakeAfter(xs, None, limit) != [] && TakeAfter(xs, None, limit)[0] == xs[0]
  {
  }

  /** GetFilmsPaginatedByRating of the service: the page and the parameters of the next one. */
  method GetRankedPage(index: seq<Entry>, pars: PaginationParameters) returns (r: Result<PaginatedResponse, Error>)
    requires IsIndex(index)
    ensures r.Failure? <==> ToInt32(pars.size) < 0
    ensures r.Success? ==> GetPage(index, pars) == Success(r.value.films)
    ensures r.Success? ==>
              forall i, j :: 0 <= i < j < |r.value.films| ==>
                r.value.films[i].rating > r.value.films[j].rating
                || (r.value.films[i].rating == r.value.films[j].rating && r.value.films[i].id > r.value.films[j].id)
    ensures r.Success? ==>
              r.value.next == if r.value.films == [] then PaginationParameters(0, 0, 0.0)
                              else PaginationParameters(pars.size, r.value.films[|r.value.films| - 1].id,
                                                        r.value.films[|r.value.films| - 1].rating)
  {
    var films := GetFilmsPaginatedByRating(index, pars);
    if films.Failure? {
      return Failure(films.error);
    }
    PageShows(index, pars, films.value);
    return Success(ToPaginatedResponse(pars.size, films.value));
  }

  // ---------- following the cursor through a fixed table ----------

  /** The k-th request of a client that starts without a cursor and follows `next`, with the
      table it finds at each request. */
  function Request(tables: nat -> seq<Entry>, size: int, k: nat): PaginationParameters
    decreases k, 0
  {
    if k == 0 then PaginationParameters(size, 0, 0.0)
    else ToPaginatedResponse(Request(tables, size, k - 1).size, Page(tables, size, k - 1)).next
  }

  function Page(tables: nat -> seq<Entry>, size: int, k: nat): seq<Entry>
    decreases k, 1
  {
    match GetPage(tables(k), Request(tables, size, k))
    case Success(films) => films
    case Failure(_) => []
  }

  function PagesOf(tables: nat -> seq<Entry>, size: int): nat -> seq<Entry> {
    (k: nat) => Page(tables, size, k)
  }

  function Concat(pages: nat -> seq<Entry>, k: nat): seq<Entry> {
    if k == 0 then [] else Concat(pages, k - 1) + pages(k - 1)
  }

  /** The pages before the k-th, put together. */
  function Listed(tables: nat -> seq<Entry>, size: int, k: nat): seq<Entry> {
    Concat(PagesOf(tables, size), k)
  }

  lemma ListedSnoc(tables: nat -> seq<Entry>, size: int, k: nat)
    ensures Listed(tables, size, k + 1) == Listed(tables, size, k) + Page(tables, size, k)
  {
  }

  function Fixed(xs: seq<Entry>): nat -> seq<Entry> {
    (k: nat) => xs
  }

  /** When every entry is eligible the page is the first `limit` of them. */
  lemma {:induction false} TakeFromStart(xs: seq<Entry>, cursor: Option<Entry>, limit: nat)
    requires forall i :: 0 <= i < |xs| ==> Eligible(cursor, xs[i])
    ensures TakeAfter(xs, cursor, limit) == xs[..Min(limit, |xs|)]
    decreases |xs|
  {
    if xs != [] && limit > 0 {
      var rest := xs[1..];
      TakeFromStart(rest, cursor, limit - 1);
      assert xs[..Min(limit, |xs|)] == [xs[0]] + rest[..Min(limit - 1, |rest|)];
    }
  }

  lemma SliceOfTail(xs: seq<Entry>, c: nat, hi: nat)
    requires 0 < c <= hi <= |xs|
    ensures xs[c..hi] == xs[1..][c - 1..hi - 1]
  {
    forall i | 0 <= i < hi - c ensures xs[c..hi][i] == xs[1..][c - 1..hi - 1][i] {
      assert xs[1..][c - 1 + i] == xs[c + i];
    }
  }

  /** After the entry at c - 1, the next page is the next `limit` entries. */
  lemma {:induction false} TakeFromPosition(xs: seq<Entry>, cursor: Option<Entry>, c: nat, limit: nat)
    requires c <= |xs|
    requires forall i :: 0 <= i < |xs| ==> (Eligible(cursor, xs[i]) <==> c <= i)
    ensures TakeAfter(xs, cursor, limit) == xs[c..Min(c + limit, |xs|)]
    decreases |xs|
  {
    if c == 0 {
      TakeFromStart(xs, cursor, limit);
    } else {
      var hi := Min(c + limit, |xs|);
      TakeFromPosition(xs[1..], cursor, c - 1, limit);
      assert Min(c - 1 + limit, |xs| - 1) == hi - 1;
      SliceOfTail(xs, c, hi);
    }
  }

  /** The request stands at position c: it asks for the entries from c on. */
  predicate StandsAt(xs: seq<Entry>, size: int, pars: PaginationParameters, c: nat)
    requires c <= |xs|
  {
    && pars.size == size
    && (c == 0 ==> pars.lastSeenId == 0)
    && (c > 0 ==> xs[c - 1].id != 0 && pars.lastSeenId == xs[c - 1].id && pars.lastSeenRating == xs[c - 1].rating)
  }

  lemma PageAtPosition(xs: seq<Entry>, size: int, limit: nat, pars: PaginationParameters, c: nat)
    requires IsIndex(xs) && limit == ToInt32(size) && c <= |xs| && StandsAt(xs, size, pars, c)
    ensures GetPage(xs, pars) == Success(xs[c..Min(c + limit, |xs|)])
  {
    var cursor := CursorOf(pars);
    forall i | 0 <= i < |xs| ensures Eligible(cursor, xs[i]) <==> c <= i {
      if c > 0 {
        assert cursor == Some(xs[c - 1]);
        if i < c - 1 {
          assert Before(xs[i], xs[c - 1]);
        } else if c - 1 < i {
          assert Before(xs[c - 1], xs[i]);
        }
      }
    }
    TakeFromPosition(xs, cursor, c, limit);
  }

  /** The film with id 0, if any, never ends a page of `limit` rows: the condition under which
      the cursor made from a page is a cursor. */
  predicate ZeroEndsNoPage(xs: seq<Entry>, limit: int)
    requires limit >= 1
  {
    forall p :: 0 <= p < |xs| && xs[p].id == 0 ==> (p + 1) % limit != 0 && p != |xs| - 1
  }

  lemma {:induction false} MultiplesAscend(a: int, b: int, limit: int)
    requires a <= b && limit >= 1
    ensures a * limit <= b * limit
    ensures a < b ==> a * limit + limit <= b * limit
    decreases b - a
  {
    if a < b {
      MultiplesAscend(a, b - 1, limit);
      assert b * limit == (b - 1) * limit + limit;
    }
  }

  lemma MultipleMod(m: nat, limit: int)
    requires limit >= 1
    ensures (m * limit) % limit == 0
  {
    var q, r := (m * limit) / limit, (m * limit) % limit;
    assert m * limit == q * limit + r;
    if m < q {
      MultiplesAscend(m, q, limit);
    } else if q < m {
      MultiplesAscend(q, m, limit);
    }
  }

  /** A page that ends at c, where no zero id can be, sets the next request at c. */
  lemma NextStandsAt(xs: seq<Entry>, size: int, limit: int, d: nat, c: nat)
    requires limit >= 1 && ZeroEndsNoPage(xs, limit)
    requires d < c <= |xs| && (c == |xs| || c % limit == 0)
    ensures StandsAt(xs, size, ToPaginatedResponse(size, xs[d..c]).next, c)
  {
    var page := xs[d..c];
    assert page[|page| - 1] == xs[c - 1];
    var p := c - 1;
    assert xs[p].id != 0;
  }

  /** One request on: from the entry at d to the entry at c. */
  lemma RequestAdvances(xs: seq<Entry>, size: int, limit: int, k: nat, d: nat, c: nat)
    requires IsIndex(xs) && limit == ToInt32(size) >= 1 && ZeroEndsNoPage(xs, limit)
    requires d < |xs| && c == Min(d + limit, |xs|) && (c == |xs| || c % limit == 0)
    requires StandsAt(xs, size, Request(Fixed(xs), size, k), d) && Listed(Fixed(xs), size, k) == xs[..d]
    ensures StandsAt(xs, size, Request(Fixed(xs), size, k + 1), c) && Listed(Fixed(xs), size, k + 1) == xs[..c]
  {
    PageAtPosition(xs, size, limit, Request(Fixed(xs), size, k), d);
    assert Page(Fixed(xs), size, k) == xs[d..c];
    NextStandsAt(xs, size, limit, d, c);
    ListedSnoc(Fixed(xs), size, k);
    assert xs[..d] + xs[d..c] == xs[..c];
  }

  lemma RequestBounds(n: nat, limit: int, k: nat, d: int, c: int)
    requires limit >= 1 && k > 0 && d == (k - 1) * limit < n && c == Min(k * limit, n)
    ensures 0 <= d < n && c == Min(d + limit, n) && (c == n || c % limit == 0)
    ensures k > 1 ==> (k - 2) * limit < n
  {
    assert k * limit == d + limit;
    MultiplesAscend(0, k - 1, limit);
    MultipleMod(k, limit);
    if k > 1 { assert d == (k - 2) * limit + limit; }
  }

  /** The k-th request stands at entry k * limit, and the pages before it are the entries
      before it. */
  lemma {:induction false} RequestsAdvance(xs: seq<Entry>, size: int, limit: int, k: nat, c: nat)
    requires IsIndex(xs) && limit == ToInt32(size) >= 1 && ZeroEndsNoPage(xs, limit)
    requires k == 0 || (k - 1) * limit < |xs|
    requires c == Min(k * limit, |xs|)
    ensures StandsAt(xs, size, Request(Fixed(xs), size, k), c) && Listed(Fixed(xs), size, k) == xs[..c]
    decreases k
  {
    if k > 0 {
      var d := (k - 1) * limit;
      RequestBounds(|xs|, limit, k, d, c);
      RequestsAdvance(xs, size, limit, k - 1, d);
      RequestAdvances(xs, size, limit, k - 1, d, c);
    }
  }

  lemma EarlierBounds(n: nat, limit: int, k: nat, j: nat)
    requires limit >= 1 && j < k && (k - 1) * limit < n
    ensures 0 <= j * limit < n
    ensures j > 0 ==> (j - 1) * limit < n
  {
    MultiplesAscend(0, j, limit);
    MultiplesAscend(j, k - 1, limit);
    MultiplesAscend(j - 1, k - 1, limit);
  }

  lemma EarlierPageNotEmpty(xs: seq<Entry>, size: int, limit: int, k: nat, j: nat)
    requires IsIndex(xs) && limit == ToInt32(size) >= 1 && ZeroEndsNoPage(xs, limit)
    requires j < k && (k - 1) * limit < |xs|
    ensures Page(Fixed(xs), size, j) != []
  {
    EarlierBounds(|xs|, limit, k, j);
    var c: nat := j * limit;
    RequestsAdvance(xs, size, limit, j, c);
    PageAtPosition(xs, size, limit, Request(Fixed(xs), size, j), c);
    assert |xs[c..Min(c + limit, |xs|)]| > 0;
  }

  /** Following the cursor from the first page lists the whole catalogue in order, without
      gap or repeat, and then meets an empty page: after n entries for the least number of
      pages that can hold them. */
  lemma PagesListCatalogue(xs: seq<Entry>, size: int, k: nat)
    requires IsIndex(xs) && ToInt32(size) >= 1 && ZeroEndsNoPage(xs, ToInt32(size))
    requires (k == 0 || (k - 1) * ToInt32(size) < |xs|) && |xs| <= k * ToInt32(size)
    ensures ListsAll(xs, size, k)
  {
    var limit := ToInt32(size);
    RequestsAdvance(xs, size, limit, k, |xs|);
    PageAtPosition(xs, size, limit, Request(Fixed(xs), size, k), |xs|);
    assert xs[|xs|..Min(|xs| + limit, |xs|)] == [];
    forall j | 0 <= j < k ensures Page(Fixed(xs), size, j) != [] {
      EarlierPageNotEmpty(xs, size, limit, k, j);
    }
  }

  /** k pages list the whole catalogue and the next one is empty. */
  ghost predicate ListsAll(xs: seq<Entry>, size: int, k: nat) {
    && (forall j :: 0 <= j < k ==> Page(Fixed(xs), size, j) != [])
    && Listed(Fixed(xs), size, k) == xs
    && GetPage(xs, Request(Fixed(xs), size, k)) == Success([])
  }

  /** The whole list, in plain terms: best rated first. */
  lemma CatalogueIsRanked(xs: seq<Entry>, size: int, k: nat)
    requires IsIndex(xs) && ListsAll(xs, size, k)
    ensures var listed := Listed(Fixed(xs), size, k);
            forall i, j :: 0 <= i < j < |listed| ==>
              listed[i].rating > listed[j].rating || (listed[i].rating == listed[j].rating && listed[i].id > listed[j].id)
  {
    SortedIsBestFirst(xs);
  }

  lemma PageCount(n: nat, limit: int) returns (k: nat)
    requires limit >= 1
    ensures (k == 0 || (k - 1) * limit < n) && n <= k * limit
  {
    k := 0;
    while k * limit < n
      invariant k == 0 || (k - 1) * limit < n
      decreases n - k * limit
    {
      assert (k + 1) * limit == k * limit + limit;
      k := k + 1;
    }
  }

  /** From a position no further than the film with id 0, the next request is at the start
      again or still no further. */
  lemma ZeroStep(xs: seq<Entry>, size: int, limit: int, p: nat, i: nat, c: nat) returns (j: nat)
    requires IsIndex(xs) && limit >= 1
    requires p < |xs| && xs[p].id == 0 && ((p + 1) % limit == 0 || p == |xs| - 1)
    requires c == i * limit && c <= p
    ensures 0 <= j * limit <= p
    ensures StandsAt(xs, size, ToPaginatedResponse(size, xs[c..Min(c + limit, |xs|)]).next, j * limit)
  {
    var q := Min(c + limit, |xs|) - 1;
    assert xs[c..q + 1][q - c] == xs[q];
    BoundaryBelow(i, limit, p, |xs|);
    if q == p {
      j := 0;
    } else {
      j := i + 1;
      assert j * limit == c + limit;
      assert xs[q].id != xs[p].id;
    }
  }

  /** If the film with id 0 ends a page, its cursor reads as no cursor, and the client goes
      round for ever: no page is empty. */
  lemma {:induction false} ZeroCursorCycles(xs: seq<Entry>, size: int, limit: int, p: nat, k: nat)
    returns (i: nat, c: nat)
    requires IsIndex(xs) && limit == ToInt32(size) >= 1
    requires p < |xs| && xs[p].id == 0 && ((p + 1) % limit == 0 || p == |xs| - 1)
    ensures c == i * limit && c <= p && StandsAt(xs, size, Request(Fixed(xs), size, k), c)
    ensures Page(Fixed(xs), size, k) == xs[c..Min(c + limit, |xs|)] != []
    decreases k
  {
    if k == 0 {
      i, c := 0, 0;
    } else {
      var i0, c0 := ZeroCursorCycles(xs, size, limit, p, k - 1);
      i := ZeroStep(xs, size, limit, p, i0, c0);
      c := i * limit;
    }
    PageAtPosition(xs, size, limit, Request(Fixed(xs), size, k), c);
  }

  lemma BoundaryBelow(i: nat, limit: int, p: nat, n: nat)
    requires limit >= 1 && i * limit <= p < n && ((p + 1) % limit == 0 || p == n - 1)
    ensures Min(i * limit + limit, n) <= p + 1
  {
    if (p + 1) % limit == 0 {
      var m := (p + 1) / limit;
      assert p + 1 == m * limit;
      if m <= i {
        MultiplesAscend(m, i, limit);
        assert false;
      }
      MultiplesAscend(i, m, limit);
    }
  }

  /** Exactly when paging through a fixed catalogue ends, for a size that still asks for rows
      once it is cut to 32 bits. */
  lemma PagingEndsIff(xs: seq<Entry>, size: int)
    requires IsIndex(xs) && ToInt32(size) >= 1
    ensures (exists k: nat :: Page(Fixed(xs), size, k) == []) <==> ZeroEndsNoPage(xs, ToInt32(size))
  {
    var limit := ToInt32(size);
    if ZeroEndsNoPage(xs, limit) {
      var k := PageCount(|xs|, limit);
      PagesListCatalogue(xs, size, k);
      assert Page(Fixed(xs), size, k) == [];
    } else {
      var p :| 0 <= p < |xs| && xs[p].id == 0 && !((p + 1) % limit != 0 && p != |xs| - 1);
      forall k: nat ensures Page(Fixed(xs), size, k) != [] {
        var i, c := ZeroCursorCycles(xs, size, limit, p, k);
      }
    }
  }

  /** A request that asks for no rows, or fewer, ends the list before it began. */
  lemma NoRowsAsked(xs: seq<Entry>, size: int, k: nat)
    requires ToInt32(size) <= 0
    ensures Page(Fixed(xs), size, 0) == []
    ensures ListsAll(xs, size, k) <==> k == 0 && xs == [] && ToInt32(size) == 0
  {
    var first := Request(Fixed(xs), size, 0);
    assert first == PaginationParameters(size, 0, 0.0);
    assert GetPage(xs, first) == if ToInt32(size) < 0 then Failure(DatabaseFailure) else Success([]);
  }

  lemma ListsAllIffEnds(xs: seq<Entry>, size: int)
    requires IsIndex(xs) && ToInt32(size) >= 1
    ensures (exists k: nat :: ListsAll(xs, size, k)) <==> ZeroEndsNoPage(xs, ToInt32(size))
  {
    if ZeroEndsNoPage(xs, ToInt32(size)) {
      var k := PageCount(|xs|, ToInt32(size));
      PagesListCatalogue(xs, size, k);
    } else {
      PagingEndsIff(xs, size);
      forall k: nat ensures !ListsAll(xs, size, k) {
        assert Page(Fixed(xs), size, k) != [];
      }
    }
  }

  /** Exactly when following the cursor lists the whole of a fixed catalogue and ends: the
      size, cut to 32 bits, is positive and no page ends with the film whose id is 0.  (An
      empty catalogue may also be asked for no rows.) */
  lemma CatalogueListedIff(xs: seq<Entry>, size: int)
    requires IsIndex(xs)
    ensures (exists k: nat :: ListsAll(xs, size, k))
            <==> if ToInt32(size) >= 1 then ZeroEndsNoPage(xs, ToInt32(size)) else xs == [] && ToInt32(size) == 0
  {
    if ToInt32(size) >= 1 {
      ListsAllIffEnds(xs, size);
    } else {
      forall k: nat ensures ListsAll(xs, size, k) <==> k == 0 && xs == [] && ToInt32(size) == 0 {
        NoRowsAsked(xs, size, k);
      }
      assert ListsAll(xs, size, 0) <==> xs == [] && ToInt32(size) == 0;
    }
  }

  /** Two sizes the handler lets through: 2^31 is refused by the database, and 2^32 is
      answered with an empty page, whatever the catalogue holds. */
  lemma HugeSizesListNothing(xs: seq<Entry>)
    ensures GetPage(xs, Request(Fixed(xs), 0x8000_0000, 0)) == Failure(DatabaseFailure)
    ensures GetPage(xs, Request(Fixed(xs), 0x1_0000_0000, 0)) == Success([])
    ensures xs != [] ==> forall k: nat :: !ListsAll(xs, 0x8000_0000, k) && !ListsAll(xs, 0x1_0000_0000, k)
  {
    assert ToInt32(0x8000_0000) == -0x8000_0000 && ToInt32(0x1_0000_0000) == 0;
    forall k: nat ensures xs != [] ==> !ListsAll(xs, 0x8000_0000, k) && !ListsAll(xs, 0x1_0000_0000, k) {
      NoRowsAsked(xs, 0x8000_0000, k);
      NoRowsAsked(xs, 0x1_0000_0000, k);
    }
  }

  /** A client that opens the list of a running database finds one of its best rated films
      at the top. */
  lemma TopIsBestRated(g: Curve, es: seq<Event>, size: int)
    requires Run(g, EMPTY, es).db.films.Keys != {} && ToInt32(size) >= 1
    ensures var films := Run(g, EMPTY, es).db.films;
            var page := Page(Fixed(Index(films)), size, 0);
            && page != [] && page[0].id in films && films[page[0].id].rating == page[0].rating
            && forall f :: f in films ==> films[f].rating <= page[0].rating
  {
    var films := Run(g, EMPTY, es).db.films;
    ReachableInv(g, es);
    IndexIsIndex(films);
    TopOfIndex(films, Index(films), size);
  }

  lemma TopOfIndex(films: Films, xs: seq<Entry>, size: int)
    requires IsIndex(xs) && Lists(xs, films) && films.Keys != {} && ToInt32(size) >= 1
    ensures var page := Page(Fixed(xs), size, 0);
            && page != [] && page[0].id in films && films[page[0].id].rating == page[0].rating
            && forall f :: f in films ==> films[f].rating <= page[0].rating
  {
    HasElement(films.Keys);
    var id :| id in films.Keys;
    assert Entry(id, films[id].rating) in xs;
    var pars := PaginationParameters(size, 0, 0.0);
    var page := Page(Fixed(xs), size, 0);
    assert Request(Fixed(xs), size, 0) == pars;
    PageShows(xs, pars, page);
    FirstPageLeads(xs, pars, page);
    assert page[0] in page;
    forall f | f in films ensures films[f].rating <= page[0].rating {
      assert Entry(f, films[f].rating) in xs;
    }
  }

  /** The film table after one batch of one film. */
  lemma OneFilmTable(g: Curve, p: FilmParams)
    requires p.Valid()
    ensures Index(Run(g, EMPTY, [InsertFilms([p])]).db.films) == [Entry(p.id, p.rating)]
  {
    RunOne(g, EMPTY, InsertFilms([p]));
    OneRowBatch(p);
    OneRowIndex(p.id, p.Row());
  }

  lemma OneRowBatch(p: FilmParams)
    requires p.Valid()
    ensures RunBatch(EMPTY_DB, [p]).err.None? && RunBatch(EMPTY_DB, [p]).db.films == map[p.id := p.Row()]
  {
    BatchFailsIffInvalid(EMPTY_DB, [p]);
    BatchInsertsAbsent(EMPTY_DB, [p]);
    assert [p][1..] == [];
    assert Ids([p]) == {p.id};
    assert p.id in EMPTY_DB.films.Keys + Ids([p]);
  }

  lemma OneRowIndex(id: int, row: FilmRow)
    requires -0x8000_0000 <= id <= MAX_INT32
    ensures Index(map[id := row]) == [Entry(id, row.rating)]
  {
    IndexIsIndex(map[id := row]);
    var xs := Index(map[id := row]);
    assert Entry(id, row.rating) in xs;
    forall i | 0 <= i < |xs| ensures xs[i] == Entry(id, row.rating) {
      assert xs[i] in xs;
    }
  }

  /** The smallest catalogue that never ends, whatever the size: one film, with id 0. */
  lemma ZeroFilmNeverEnds(g: Curve, p: FilmParams, size: int, k: nat)
    requires p.Valid() && p.id == 0 && ToInt32(size) >= 1
    ensures var xs := Index(Run(g, EMPTY, [InsertFilms([p])]).db.films);
            Page(Fixed(xs), size, k) == [Entry(0, p.rating)]
  {
    OneFilmTable(g, p);
    var xs := [Entry(0, p.rating)];
    var i, c := ZeroCursorCycles(xs, size, ToInt32(size), 0, k);
  }

  // ---------- following the cursor while ratings change ----------

  ghost predicate AllIndexes(tables: nat -> seq<Entry>) {
    forall k :: IsIndex(tables(k))
  }

  ghost predicate PagesGoOn(tables: nat -> seq<Entry>, size: int, n: nat) {
    forall j :: 0 <= j < n ==> Page(tables, size, j) != []
  }

  /** The j-th page ends with the film whose id is 0, so its cursor is none. */
  predicate EndsWithZero(tables: nat -> seq<Entry>, size: int, j: nat) {
    var page := Page(tables, size, j);
    page != [] && page[|page| - 1].id == 0
  }

  /** The pages before the n-th are not empty, and none of them ends with the id 0. */
  ghost predicate PagesLeadOn(tables: nat -> seq<Entry>, size: int, n: nat) {
    PagesGoOn(tables, size, n) && forall j :: 0 <= j < n ==> !EndsWithZero(tables, size, j)
  }

  lemma {:induction false} SizeIsKept(tables: nat -> seq<Entry>, size: int, n: nat)
    requires PagesGoOn(tables, size, n)
    ensures Request(tables, size, n).size == size
    decreases n
  {
    if n > 0 {
      SizeIsKept(tables, size, n - 1);
    }
  }

  lemma PageIsTake(tables: nat -> seq<Entry>, size: int, k: nat)
    requires PagesGoOn(tables, size, k) && ToInt32(size) >= 0
    ensures Page(tables, size, k) == TakeAfter(tables(k), CursorOf(Request(tables, size, k)), ToInt32(size))
  {
    SizeIsKept(tables, size, k);
  }

  /** The rows of a page are rows of the table it is taken from, after the cursor, in order. */
  lemma PageIsOfTable(tables: nat -> seq<Entry>, size: int, k: nat)
    requires IsIndex(tables(k)) && PagesGoOn(tables, size, k) && ToInt32(size) >= 0
    ensures var page := Page(tables, size, k);
            Sorted(page)
            && forall e :: e in page ==> e in tables(k) && Eligible(CursorOf(Request(tables, size, k)), e)
  {
    PageIsTake(tables, size, k);
    PageRows(tables(k), CursorOf(Request(tables, size, k)), ToInt32(size));
  }

  /** The cursor made from a page is its last row, unless that is the film with id 0. */
  lemma NextCursor(tables: nat -> seq<Entry>, size: int, k: nat)
    requires IsIndex(tables(k)) && PagesGoOn(tables, size, k) && ToInt32(size) >= 0
    requires Page(tables, size, k) != [] && !EndsWithZero(tables, size, k)
    ensures var page := Page(tables, size, k);
            CursorOf(Request(tables, size, k + 1)) == Some(page[|page| - 1])
  {
    PageIsOfTable(tables, size, k);
    var page := Page(tables, size, k);
    assert page[|page| - 1] in page;
    LastInRange(tables(k), page[|page| - 1]);
  }

  lemma LastInRange(xs: seq<Entry>, e: Entry)
    requires IsIndex(xs) && e in xs
    ensures ToInt32(e.id) == e.id
  {
  }

  /** The cursor is the last of what has been listed. */
  predicate IsCursor(cursor: Option<Entry>, listed: seq<Entry>) {
    cursor == if listed == [] then None else Some(listed[|listed| - 1])
  }

  lemma AppendPage(before: seq<Entry>, cursor: Option<Entry>, page: seq<Entry>)
    requires Sorted(before) && Sorted(page) && page != [] && IsCursor(cursor, before)
    requires forall e :: e in page ==> Eligible(cursor, e)
    ensures Sorted(before + page) && IsCursor(Some(page[|page| - 1]), before + page)
  {
    forall i, j | 0 <= i < |before| && 0 <= j < |page| ensures Before(before[i], page[j]) {
      assert page[j] in page;
      assert i == |before| - 1 || Before(before[i], before[|before| - 1]);
    }
  }

  lemma PageDecreases(tables: nat -> seq<Entry>, size: int, k: nat, listed: seq<Entry>)
    requires IsIndex(tables(k)) && PagesGoOn(tables, size, k) && ToInt32(size) >= 1
    requires Page(tables, size, k) != [] && !EndsWithZero(tables, size, k)
    requires Sorted(listed) && IsCursor(CursorOf(Request(tables, size, k)), listed)
    ensures var after := listed + Page(tables, size, k);
            Sorted(after) && IsCursor(CursorOf(Request(tables, size, k + 1)), after)
  {
    PageIsOfTable(tables, size, k);
    NextCursor(tables, size, k);
    AppendPage(listed, CursorOf(Request(tables, size, k)), Page(tables, size, k));
  }

  /** Each request asks for what comes after the last entry listed; so what is listed is
      strictly decreasing, whatever happens to the ratings. */
  lemma {:induction false} ListedDecreases(tables: nat -> seq<Entry>, size: int, k: nat)
    requires AllIndexes(tables) && ToInt32(size) >= 1 && PagesLeadOn(tables, size, k)
    ensures Sorted(Listed(tables, size, k)) && IsCursor(CursorOf(Request(tables, size, k)), Listed(tables, size, k))
    decreases k
  {
    if k > 0 {
      ListedDecreases(tables, size, k - 1);
      ListedSnoc(tables, size, k - 1);
      assert IsIndex(tables(k - 1));
      assert !EndsWithZero(tables, size, k - 1);
      PageDecreases(tables, size, k - 1, Listed(tables, size, k - 1));
    }
  }

  /** In plain terms: over any number of requests, whatever is voted in between, no film is
      listed below one with a lower rating. */
  lemma ListedIsRanked(tables: nat -> seq<Entry>, size: int, k: nat)
    requires AllIndexes(tables) && ToInt32(size) >= 1 && PagesLeadOn(tables, size, k)
    ensures var listed := Listed(tables, size, k);
            forall i, j :: 0 <= i < j < |listed| ==>
              listed[i].rating > listed[j].rating || (listed[i].rating == listed[j].rating && listed[i].id > listed[j].id)
  {
    ListedDecreases(tables, size, k);
    SortedIsBestFirst(Listed(tables, size, k));
  }

  lemma PageOrAhead(xs: seq<Entry>, cursor: Option<Entry>, limit: nat, e: Entry)
    requires Sorted(xs) && limit >= 1 && e in xs && Eligible(cursor, e)
    requires TakeAfter(xs, cursor, limit) != []
    ensures var page := TakeAfter(xs, cursor, limit);
            e in page || Before(page[|page| - 1], e)
  {
    if e !in TakeAfter(xs, cursor, limit) {
      PageOmits(xs, cursor, limit, e);
    }
  }

  lemma StillAhead(tables: nat -> seq<Entry>, size: int, k: nat, e: Entry)
    requires IsIndex(tables(k)) && PagesGoOn(tables, size, k) && ToInt32(size) >= 1
    requires Page(tables, size, k) != [] && !EndsWithZero(tables, size, k)
    requires e in tables(k) && Eligible(CursorOf(Request(tables, size, k)), e)
    ensures e in Page(tables, size, k) || Eligible(CursorOf(Request(tables, size, k + 1)), e)
  {
    PageIsTake(tables, size, k);
    PageOrAhead(tables(k), CursorOf(Request(tables, size, k)), ToInt32(size), e);
    NextCursor(tables, size, k);
  }

  /** An entry present at every request is listed already, or still ahead of the cursor. */
  lemma {:induction false} ListedOrAhead(tables: nat -> seq<Entry>, size: int, k: nat, e: Entry)
    requires AllIndexes(tables) && ToInt32(size) >= 1 && PagesLeadOn(tables, size, k)
    requires forall j :: 0 <= j < k ==> e in tables(j)
    ensures e in Listed(tables, size, k) || Eligible(CursorOf(Request(tables, size, k)), e)
    decreases k
  {
    if k > 0 {
      ListedOrAhead(tables, size, k - 1, e);
      ListedSnoc(tables, size, k - 1);
      if e !in Listed(tables, size, k - 1) {
        assert IsIndex(tables(k - 1));
        assert !EndsWithZero(tables, size, k - 1);
        StillAhead(tables, size, k - 1, e);
      }
    }
  }

  /** Whatever happens between the requests: an entry that is in the table at every one of
      them is listed by the time an empty page comes, and nothing is listed twice, if no page
      sends the client back to the start. */
  lemma LeadOnListsOnce(tables: nat -> seq<Entry>, size: int, n: nat, e: Entry)
    requires AllIndexes(tables) && ToInt32(size) >= 1 && PagesLeadOn(tables, size, n)
    requires Page(tables, size, n) == []
    requires forall j :: 0 <= j <= n ==> e in tables(j)
    ensures e in Listed(tables, size, n) && NoRepeats(Listed(tables, size, n))
  {
    ListedOrAhead(tables, size, n, e);
    ListedDecreases(tables, size, n);
    assert IsIndex(tables(n));
    assert e in tables(n);
    PageIsTake(tables, size, n);
    if Eligible(CursorOf(Request(tables, size, n)), e) {
      PageOmits(tables(n), CursorOf(Request(tables, size, n)), ToInt32(size), e);
    }
  }

  // ---------- back to the start ----------

  /** The last of the first n requests to start from the top of the list. */
  function LastStart(tables: nat -> seq<Entry>, size: int, n: nat): (r: nat)
    ensures r <= n && (r > 0 ==> EndsWithZero(tables, size, r - 1))
    ensures forall j :: r <= j < n ==> !EndsWithZero(tables, size, j)
  {
    if n == 0 || EndsWithZero(tables, size, n - 1) then n else LastStart(tables, size, n - 1)
  }

  function From(tables: nat -> seq<Entry>, r: nat): nat -> seq<Entry> {
    (k: nat) => tables(r + k)
  }

  /** From a request without a cursor on, the client sees what one that starts there sees. */
  lemma {:induction false} SamePageFrom(tables: nat -> seq<Entry>, size: int, r: nat, k: nat)
    requires Request(tables, size, r).size == size && Request(tables, size, r).lastSeenId == 0
    ensures Page(From(tables, r), size, k) == Page(tables, size, r + k)
    ensures k > 0 ==> Request(From(tables, r), size, k) == Request(tables, size, r + k)
    decreases k
  {
    if k > 0 {
      SamePageFrom(tables, size, r, k - 1);
    }
  }

  lemma {:induction false} ConcatFrom(pages: nat -> seq<Entry>, later: nat -> seq<Entry>, r: nat, k: nat)
    requires forall j: nat :: j < k ==> later(j) == pages(r + j)
    ensures Concat(pages, r + k) == Concat(pages, r) + Concat(later, k)
    decreases k
  {
    if k > 0 {
      ConcatFrom(pages, later, r, k - 1);
      assert later(k - 1) == pages(r + (k - 1));
      assert (Concat(pages, r) + Concat(later, k - 1)) + later(k - 1)
          == Concat(pages, r) + (Concat(later, k - 1) + later(k - 1));
    }
  }

  lemma ListedFrom(tables: nat -> seq<Entry>, size: int, r: nat, k: nat)
    requires Request(tables, size, r).size == size && Request(tables, size, r).lastSeenId == 0
    ensures Listed(tables, size, r + k) == Listed(tables, size, r) + Listed(From(tables, r), size, k)
  {
    var pages, later := PagesOf(tables, size), PagesOf(From(tables, r), size);
    forall j: nat ensures later(j) == pages(r + j) {
      SamePageFrom(tables, size, r, j);
    }
    ConcatFrom(pages, later, r, k);
  }

  lemma StartHasNoCursor(tables: nat -> seq<Entry>, size: int, n: nat)
    requires PagesGoOn(tables, size, n)
    ensures var r := LastStart(tables, size, n);
            Request(tables, size, r).size == size && Request(tables, size, r).lastSeenId == 0
  {
    SizeIsKept(tables, size, LastStart(tables, size, n));
  }

  lemma LeadsOnFromStart(tables: nat -> seq<Entry>, size: int, r: nat, n: nat)
    requires PagesGoOn(tables, size, n) && r <= n
    requires Request(tables, size, r).size == size && Request(tables, size, r).lastSeenId == 0
    requires forall j :: r <= j < n ==> !EndsWithZero(tables, size, j)
    ensures PagesLeadOn(From(tables, r), size, n - r)
  {
    forall j | 0 <= j < n - r
      ensures Page(From(tables, r), size, j) != [] && !EndsWithZero(From(tables, r), size, j)
    {
      SamePageFrom(tables, size, r, j);
      assert !EndsWithZero(tables, size, r + j);
    }
  }

  /** After its last start the client lists each unchanging entry once. */
  lemma ListedOnceFromStart(tables: nat -> seq<Entry>, size: int, r: nat, n: nat, e: Entry)
    requires AllIndexes(tables) && ToInt32(size) >= 1 && PagesGoOn(tables, size, n) && r <= n
    requires Request(tables, size, r).size == size && Request(tables, size, r).lastSeenId == 0
    requires forall j :: r <= j < n ==> !EndsWithZero(tables, size, j)
    requires Page(tables, size, n) == [] && forall j :: 0 <= j <= n ==> e in tables(j)
    ensures e in Listed(From(tables, r), size, n - r) && NoRepeats(Listed(From(tables, r), size, n - r))
  {
    SamePageFrom(tables, size, r, n - r);
    LeadsOnFromStart(tables, size, r, n);
    IndexesFrom(tables, r);
    forall j | 0 <= j <= n - r ensures e in From(tables, r)(j) {
      assert e in tables(r + j);
    }
    LeadOnListsOnce(From(tables, r), size, n - r, e);
  }

  lemma IndexesFrom(tables: nat -> seq<Entry>, r: nat)
    requires AllIndexes(tables)
    ensures AllIndexes(From(tables, r))
  {
    forall k ensures IsIndex(From(tables, r)(k)) {
      assert IsIndex(tables(r + k));
    }
  }

  lemma {:induction false} NoRepeatsCount(xs: seq<Entry>, e: Entry)
    requires NoRepeats(xs) && e in xs
    ensures multiset(xs)[e] == 1
    decreases |xs|
  {
    var n := |xs| - 1;
    assert xs == xs[..n] + [xs[n]];
    if xs[n] == e {
      assert e !in xs[..n];
    } else {
      NoRepeatsCount(xs[..n], e);
    }
  }

  predicate OnPage(tables: nat -> seq<Entry>, size: int, j: nat, e: Entry) {
    e in Page(tables, size, j)
  }

  lemma {:induction false} ListedIsPages(tables: nat -> seq<Entry>, size: int, n: nat, e: Entry)
    ensures e in Listed(tables, size, n) <==> exists j: nat :: j < n && OnPage(tables, size, j, e)
    decreases n
  {
    if n > 0 {
      ListedIsPages(tables, size, n - 1, e);
      ListedSnoc(tables, size, n - 1);
      assert e in Page(tables, size, n - 1) <==> OnPage(tables, size, n - 1, e);
    }
  }

  /** No page, from the first that lists e on, sends the client back to the start. */
  ghost predicate NotRestartedAfter(tables: nat -> seq<Entry>, size: int, n: nat, e: Entry) {
    forall i: nat, j: nat :: i <= j < n && OnPage(tables, size, i, e) ==> !EndsWithZero(tables, size, j)
  }

  lemma RestartedAfterIff(tables: nat -> seq<Entry>, size: int, r: nat, n: nat, e: Entry)
    requires r <= n && (r > 0 ==> EndsWithZero(tables, size, r - 1))
    requires forall j :: r <= j < n ==> !EndsWithZero(tables, size, j)
    ensures NotRestartedAfter(tables, size, n, e) <==> e !in Listed(tables, size, r)
  {
    ListedIsPages(tables, size, r, e);
    if e in Listed(tables, size, r) {
      var i: nat :| i < r && OnPage(tables, size, i, e);
      assert EndsWithZero(tables, size, r - 1);
    } else {
      forall i: nat, j: nat | i <= j < n && OnPage(tables, size, i, e) ensures !EndsWithZero(tables, size, j) {
        assert r <= i;
      }
    }
  }

  /** What was listed before the client's last start, and since. */
  lemma SplitAtLastStart(tables: nat -> seq<Entry>, size: int, n: nat, e: Entry)
    returns (before: seq<Entry>, since: seq<Entry>)
    requires AllIndexes(tables) && ToInt32(size) >= 1 && PagesGoOn(tables, size, n)
    requires Page(tables, size, n) == []
    requires forall j :: 0 <= j <= n ==> e in tables(j)
    ensures Listed(tables, size, n) == before + since
    ensures e in since && NoRepeats(since)
    ensures NotRestartedAfter(tables, size, n, e) <==> e !in before
  {
    var r := LastStart(tables, size, n);
    StartHasNoCursor(tables, size, n);
    before, since := Listed(tables, size, r), Listed(From(tables, r), size, n - r);
    assert Listed(tables, size, n) == before + since by {
      ListedFrom(tables, size, r, n - r);
    }
    assert e in since && NoRepeats(since) by {
      ListedOnceFromStart(tables, size, r, n, e);
    }
    RestartedAfterIff(tables, size, r, n, e);
  }

  /** Whatever happens between the requests: an entry that is in the table at every one of
      them is listed by the time an empty page comes, and exactly once if and only if no page
      from the one that lists it on ends with the film whose id is 0. */
  lemma UnchangedListedOnceIff(tables: nat -> seq<Entry>, size: int, n: nat, e: Entry)
    requires AllIndexes(tables) && ToInt32(size) >= 1 && PagesGoOn(tables, size, n)
    requires Page(tables, size, n) == []
    requires forall j :: 0 <= j <= n ==> e in tables(j)
    ensures multiset(Listed(tables, size, n))[e] >= 1
    ensures multiset(Listed(tables, size, n))[e] == 1 <==> NotRestartedAfter(tables, size, n, e)
  {
    var before, since := SplitAtLastStart(tables, size, n, e);
    OnceInTheRest(before, since, e);
  }

  lemma OnceInTheRest(a: seq<Entry>, b: seq<Entry>, e: Entry)
    requires e in b && NoRepeats(b)
    ensures e in a + b
    ensures multiset(a + b)[e] >= 1
    ensures multiset(a + b)[e] == 1 <==> e !in a
  {
    NoRepeatsCount(b, e);
    assert multiset(a + b) == multiset(a) + multiset(b);
  }

  /** In particular, exactly once if no film has the id 0. */
  lemma UnchangedListedOnce(tables: nat -> seq<Entry>, size: int, n: nat, e: Entry)
    requires AllIndexes(tables) && ToInt32(size) >= 1 && PagesGoOn(tables, size, n)
    requires Page(tables, size, n) == []
    requires forall j :: 0 <= j <= n ==> e in tables(j)
    requires forall k, x :: 0 <= k < n && x in tables(k) ==> x.id != 0
    ensures multiset(Listed(tables, size, n))[e] == 1
  {
    forall j | 0 <= j < n ensures !EndsWithZero(tables, size, j) {
      if EndsWithZero(tables, size, j) {
        var page := Page(tables, size, j);
        assert IsIndex(tables(j));
        PageIsOfTable(tables, size, j);
      }
    }
    UnchangedListedOnceIff(tables, size, n, e);
  }

  /** The requests of a client that browses the list while the database runs: the k-th finds
      the film table after schedule(k). */
  ghost predicate Browses(g: Curve, schedule: nat -> seq<Event>, tables: nat -> seq<Entry>) {
    && (forall k :: tables(k) == Index(Run(g, EMPTY, schedule(k)).db.films))
    && forall k :: schedule(0) <= schedule(k)
  }

  lemma BrowsedTables(g: Curve, schedule: nat -> seq<Event>, tables: nat -> seq<Entry>)
    requires Browses(g, schedule, tables)
    ensures AllIndexes(tables)
    ensures forall k :: Lists(tables(k), Run(g, EMPTY, schedule(k)).db.films)
  {
    forall k ensures IsIndex(tables(k)) && Lists(tables(k), Run(g, EMPTY, schedule(k)).db.films) {
      ReachableInv(g, schedule(k));
      IndexIsIndex(Run(g, EMPTY, schedule(k)).db.films);
    }
  }

  lemma UnvotedStays(g: Curve, schedule: nat -> seq<Event>, tables: nat -> seq<Entry>, film: int, k: nat)
    requires Browses(g, schedule, tables) && film in Run(g, EMPTY, schedule(0)).db.films
    requires film in Run(g, EMPTY, schedule(k)).db.films ==>
               Run(g, EMPTY, schedule(k)).db.films[film].duelCount
               == Run(g, EMPTY, schedule(0)).db.films[film].duelCount
    ensures Entry(film, Run(g, EMPTY, schedule(0)).db.films[film].rating) in tables(k)
  {
    BrowsedTables(g, schedule, tables);
    var more := schedule(k)[|schedule(0)|..];
    assert schedule(k) == schedule(0) + more;
    RatingMovesOnlyWithCount(g, schedule(0), more, film);
    assert Lists(tables(k), Run(g, EMPTY, schedule(k)).db.films);
  }

  /** A film that nobody votes on while the list is browsed, page by page, among any other
      votes, new films and duels, is listed with its rating: exactly once if and only if the
      client is not sent back to the start after that, and so if no film has the id 0. */
  lemma UnvotedFilmListedOnce(g: Curve, schedule: nat -> seq<Event>, tables: nat -> seq<Entry>,
                              size: int, n: nat, film: int)
    requires Browses(g, schedule, tables)
    requires ToInt32(size) >= 1 && PagesGoOn(tables, size, n) && Page(tables, size, n) == []
    requires film in Run(g, EMPTY, schedule(0)).db.films
    requires forall k :: 0 <= k <= n && film in Run(g, EMPTY, schedule(k)).db.films ==>
               Run(g, EMPTY, schedule(k)).db.films[film].duelCount
               == Run(g, EMPTY, schedule(0)).db.films[film].duelCount
    ensures var e := Entry(film, Run(g, EMPTY, schedule(0)).db.films[film].rating);
            var count := multiset(Listed(tables, size, n))[e];
            && count >= 1
            && (count == 1 <==> NotRestartedAfter(tables, size, n, e))
            && ((forall k :: 0 <= k < n ==> 0 !in Run(g, EMPTY, schedule(k)).db.films) ==> count == 1)
  {
    BrowsedTables(g, schedule, tables);
    var e := Entry(film, Run(g, EMPTY, schedule(0)).db.films[film].rating);
    forall k | 0 <= k <= n ensures e in tables(k) {
      UnvotedStays(g, schedule, tables, film, k);
    }
    UnchangedListedOnceIff(tables, size, n, e);
    if forall k :: 0 <= k < n ==> 0 !in Run(g, EMPTY, schedule(k)).db.films {
      forall k, x | 0 <= k < n && x in tables(k) ensures x.id != 0 {
        assert Lists(tables(k), Run(g, EMPTY, schedule(k)).db.films);
      }
      UnchangedListedOnce(tables, size, n, e);
    }
  }
}
