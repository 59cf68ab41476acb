# Verified model of the vote, rating and matchmaking engine

The project models the part of filmmash-go that turns duels into ratings, and proves laws of
it that hold for every input and every interleaving.

- **Votes.** `Engine` is a transition system over the committed tables, the vote sequence, the
  row locks and any number of `RegisterVote` transactions, each cut into the statements it
  sends: lock the lower film, lock the higher film, rate, insert the vote (with both duel
  counts), write the winner's rating, write the loser's rating, commit. A transaction may be
  aborted at any point. Duels and batches of films are created at any moment, and sequence
  values may be drawn by rows that never commit. A schedule is a list of events; every law of
  `Runs`, `Progress` and `Atomicity` is about every schedule from the empty database.
  `SerialCall` says outright what a call by itself does.
- **The same code in its own form.** `Server.Database` holds the tables as fields that its
  methods update in place, one method a statement. `RegisterVote` is the closure, `ExecTx` and
  its deferred commit or rollback, run while other clients do anything between two statements
  and while faults, cancelled lock waits and panics strike anywhere. Each method is proved equal to
  the step of the engine it amounts to, so the laws of the engine are laws of these tables.
  `RegisterVote.CallMeans` lists what is proved of a call.
- **Ratings.** `Elo` is the arithmetic of one vote in exact reals, for an arbitrary positive
  curve `g` with `g(x) * g(-x) == 1` in place of `10^(x/400)`; `History` replays votes serially
  and shows when they may be reordered; `Drift` bounds what any history does to the total and
  to one film.
- **Matchmaking.** `Candidates` is the two-stage candidate query as a relation, since ties
  under ORDER BY are open, and the older ComposeDuel query; `Matchmaking` is the weighted draw
  and the creation of the next duel.
- **Ranked list.** `Paging` follows the (rating, id) cursor from page to page, over a fixed
  table and over one that changes between requests.
- **Catalogue.** `Catalogue` is the batch insert, statement by statement.

Assumptions about the database: row locks are exclusive and held to the end of the
transaction, a locking read waits and then returns the latest committed row, uncommitted rows
are seen only by their transaction, a statement that fails in the database frees its
transaction's locks at once (so it and the ROLLBACK that follows are one step), and a batch sent
outside a transaction is one implicit transaction (as pgx documents).

## What the code does not do

Three promises fail, and the model keeps the code as it is:

- Paging does not end for every catalogue: a cursor with id 0 is read as no cursor, so if the
  film with id 0 ends a page the client is sent back to the first page for ever.
  `Paging.ZeroFilmNeverEnds` is the smallest case and `Paging.PagingEndsIff` the exact condition.
  With the table changing between requests, an unchanging film is then listed more than once:
  `Paging.UnchangedListedOnceIff` says exactly when.
- Paging does not list every catalogue for every positive size: the size is cut to 32 bits, so
  2^31 is refused by the database and 2^32 is answered with an empty page
  (`Paging.HugeSizesListNothing`). `Paging.CatalogueListedIff` is the exact condition, for every
  size.
- The count `InsertFilmBatch` returns beside an error counts rows that were undone.
  `Catalogue.CountedButNotKept` is a case. `Catalogue.CountIsKeptIff` says for which tables and
  batches the count is the number of films added: all rows are valid, or none before the first
  invalid one is new.

## Model

| member | source | states |
|---|---|---|
| Elo.KIsBasePlusExcess | internal/film/film.go:61-66 | For every count the schema admits, K is 20 plus an excess that falls from 20 to 0 over the first twenty duels, so it stays between 20 and 40 and the int16 conversion never wraps |
| Elo.ExpectedSharesOnePoint | internal/film/film.go:72-73 | The two expected scores of a duel sum to exactly one |
| Elo.OddsLaw | internal/film/film.go:72-73 | The curve is read at the difference of the ratings: the expected scores are in the proportion g(a-b) to one |
| Elo.VoteExchange | internal/film/film.go:68-77 | The winner gains Kw*Eb, the loser loses Kl*Eb, both strictly and by less than K, in the ratio of the K factors, and the total moves by (Kw-Kl)*Eb; each move is exactly one in 1 + g(winner - loser) of the K |
| Elo.UpsetPaysMore | internal/film/film.go:72-74 | With an increasing curve, the winner gains strictly more the further the loser is rated above it: the gain rises with the loser's rating and falls with the winner's |
| Elo.RampIsIncreasingCurve | internal/film/film.go:72-73 | The hypotheses on the curve can all be met at once |
| History.ReplayPerFilm | internal/vote/register_vote.go:67-90 | Replaying votes leaves each film one count per vote naming it and the rating_after of its last vote, and nothing else changed |
| History.VotesCommute | internal/vote/register_vote.go:48-91 | Two votes on disjoint films have the same outcome in either order |
| History.SortingPreservesReplay | migrations/20260530214103_init_schema.sql:55-64 | If conflicting votes are listed in sequence order, replaying the list and replaying it sorted by applied_seq agree, stored ratings included |
| History.LastIsGreatest | migrations/20260530214103_init_schema.sql:62-64 | A film's last listed vote is its vote with the greatest applied_seq |
| History.ReplayPaysAtOdds | internal/vote/register_vote.go:67-72 | Every vote of a history pays, times 1 + g(winner - loser), exactly 40 less the film's duels so far, or 20 from the twentieth on, by the table it was cast on |
| Drift.ShiftOfOneVote | internal/film/film.go:61-77 | One vote moves the total by at most the excess K the two films have left, and not at all when both have twenty duels |
| Drift.DriftBounded | internal/film/film.go:61-77 | A history of any length moves the total by at most 210 points a film |
| Drift.SettledTotalIsConstant | internal/film/film.go:61-77 | Once every film has twenty duels, any further history keeps the total exactly |
| Drift.FilmStaysInReach | internal/film/film.go:61-77 | A film with n votes is within K(0)+..+K(n-1) of its initial rating, strictly once n >= 1 |
| Drift.ReachClosedForm | internal/film/film.go:61-66 | That bound is n(81-n)/2 up to twenty votes and 210+20n from then on |
| Preservation.StepKeeps | internal/vote/register_vote.go:48-91 | Every statement, abort, commit, duel and batch keeps the invariant: locks are held by exactly the transaction whose phase says so, rows read under lock stay current, pending votes are unique to their duel and numbered above every conflicting vote |
| Preservation.ReachableInv | internal/vote/register_vote.go:48-95 | The invariant holds after every schedule from the empty database |
| Preservation.CommitSettles | internal/database/database.go:66-75 | What COMMIT publishes is one serial vote on the committed table |
| Preservation.OtherDuel | internal/database/queries/duels.sql:17-26 | No two transactions holding locks vote on the same duel |
| Runs.SerializableBySeq | internal/vote/register_vote.go:48-91 | After every schedule, replaying the committed votes in applied_seq order recomputes every stored rating_after and ends in exactly the stored films |
| Runs.EveryRunIsSerial | internal/vote/register_vote.go:48-91 | The same for the order computed by sorting: every interleaving is equivalent to a serial run |
| Runs.VotesPayAtOdds | internal/vote/register_vote.go:67-72 | After every schedule each stored vote's ratings are those odds and K factors on the ratings and duel counts that the votes before it in applied_seq order left |
| Runs.SerialOrderRespectsTime | migrations/20260530214103_init_schema.sql:62-64 | The serial order is that of real time too: a vote committed before another call began has the smaller applied_seq |
| Runs.FilmHistory | internal/database/queries/votes.sql:1-8 | A film's duel_count is the number of committed votes naming it, its rating the rating_after of its vote with the greatest applied_seq, and without votes its row is as inserted |
| Runs.TotalDriftBounded | internal/vote/register_vote.go:67-72 | After every schedule the total rating is within 210 points a film of the total inserted |
| Runs.FilmRatingBounded | internal/vote/register_vote.go:67-72 | After every schedule a film with n duels is within n(81-n)/2, or 210+20n, of its initial rating |
| Runs.SettledTotalStaysConstant | internal/film/film.go:61-66 | Once all films have twenty duels the total is constant on every continuation without new films |
| Runs.RatingMovesOnlyWithCount | internal/film/repository.go:199-223 | Over any run a film's duel_count never falls, and its row changes only together with it |
| Runs.CountingLaws | internal/database/queries/duels.sql:118-120 | No duel has two votes, a vote's films are its duel's, duel_counts sum to twice the votes, and pending duels number duels less votes |
| Progress.WaitsUpwards | internal/database/queries/duels.sql:25-26 | A waiting transaction waits for an unfinished one, which if it waits too wants a film with a greater id |
| Progress.SomeoneCanStep | internal/database/queries/duels.sql:25-26 | Deadlock freedom: while a transaction is unfinished, some transaction can step |
| Progress.StuckMeansFinished | internal/vote/register_vote.go:48-91 | No transaction can step exactly when all have finished |
| Progress.StatementsBounded | internal/vote/register_vote.go:48-91 | Over any effective run the statements and aborts are bounded by the work at hand plus seven a call begun |
| Progress.EveryCallCanFinish | internal/vote/register_vote.go:48-91 | From every reachable state the calls under way can all be completed, without an abort, within their remaining statements |
| Atomicity.UncommittedLeavesNoTrace | internal/database/database.go:60-79 | Taking every statement of a call that does not commit out of a run leaves an effective run with the same tables, sequence and other transactions |
| Atomicity.FailedCallLeavesNoTrace | internal/database/database.go:60-79 | So a call that has not committed, among any others, leaves exactly the state of the same run without its statements: the others do the same in the same order and end where they ended, tables and sequence included |
| Atomicity.OnlyCommitPublishes | internal/database/database.go:66-75 | No step but COMMIT adds a vote or changes a stored film row |
| Atomicity.CommitPublishesAll | internal/vote/register_vote.go:73-90 | COMMIT publishes the vote, both counts and both ratings at once, for a duel that had no vote |
| SerialCall.UncontendedCall | internal/vote/register_vote.go:48-95 | A call that meets no other's lock is refused exactly when the duel is missing, the winner is foreign to it, it has a vote, or a count is full, in that order of errors and without a trace; in every other case it commits exactly one serial vote |
| SerialCall.DraftIsSerial | internal/vote/register_vote.go:54-80 | Among any others, the vote a transaction is about to insert is the one the current tables call for, and its INSERT fails exactly as those tables say |
| SerialCall.PendingIsSerial | internal/vote/register_vote.go:67-91 | A vote ready to commit is the serial one on the tables of that moment, whatever others have committed since it was rated |
| Server.Database.LockLowRow | internal/database/queries/duels.sql:17-26 | The first row lock is one step of the engine; it fails exactly for a duel that does not exist |
| Server.Database.LockHighRow | internal/duel/repository.go:77-95 | The second row lock is one step of the engine and cannot find fewer than two rows |
| Server.Database.RateVote | internal/vote/register_vote.go:54-80 | Winner, loser and new ratings are those of the engine; a winner outside the duel is refused |
| Server.Database.InsertVoteRow | internal/vote/repository.go:27-45 | Both counts and the numbered vote are written to the transaction, or the error of the first violated constraint is returned, DuplicateEntry exactly when the duel has a vote; the sequence is drawn either way |
| Server.Database.UpdateRatingRow | internal/database/queries/films.sql:78-79 | A rating update is one step of the engine and never misses its row |
| Server.Database.CommitTx | internal/database/database.go:73 | COMMIT makes the transaction's rows and vote the stored ones and frees its locks |
| Server.Database.RollbackTx | internal/database/database.go:48-58 | ROLLBACK drops the transaction's rows and frees its locks |
| Server.Database.CreateDuelRow | internal/database/queries/duels.sql:101-116 | A duel is stored exactly when its id is new and its films exist and differ |
| Server.Database.InsertFilmBatch | internal/film/repository.go:65-99 | It errs exactly when a film fails a check or has negative popularity, and then stores nothing; otherwise existing films are untouched, each new id has the rating (1400 if it came without), popularity and director of the first film that brought it and no duels, and the count is the number of distinct new ids |
| Server.BatchStoresInput | internal/film/repository.go:71-85 | The same of the batch the films are turned into: rows in terms of the fields the caller passed |
| Server.BatchErrsOnInput | internal/film/repository.go:88-98 | The batch errs exactly when one of the caller's films fails a check of the schema |
| Server.QueryRows | internal/database/dbgen/batch.go:75-91 | The result loop and its callback compute the batch's count and first error |
| Server.NoFilmStoredUnrated | internal/film/repository.go:71-73 | A film without a rating is never stored with rating zero |
| RegisterVote.GetDuelRatings | internal/duel/repository.go:77-95 | Both rows are locked and read, or the duel does not exist, or a fault or a lock never freed stopped it |
| RegisterVote.UpdateRatings | internal/film/repository.go:199-223 | The winner's then the loser's rating is written; only a fault can stop it |
| RegisterVote.Closure | internal/vote/register_vote.go:48-91 | The closure ends with all writes pending, or with exactly the error the tables call for, or stopped by a fault or a lock never freed |
| RegisterVote.Deferred | internal/database/database.go:66-75 | Commit exactly on nil, which applies one serial vote whole; rollback on an error or a panic, which leaves the tables alone |
| RegisterVote.ExecTx | internal/database/database.go:60-79 | The transaction always finishes, and the reply tells how |
| RegisterVote.RegisterVote | internal/vote/register_vote.go:40-98 | Under any interference and faults: a returned vote is the serial one on the tables its COMMIT found, and it, both counts and both ratings are all that COMMIT changed, the ratings at the odds and K factors of the two rows before; no fault struck at any step of a call that returns a vote; an error is exactly the refusal the tables call for, unless a fault or a lock never freed stopped the call; without a vote the others are where they would be without its statements; and with nobody interfering the reply and the tables are those of the serial call |
| RegisterVote.CallLaws | internal/vote/register_vote.go:40-98 | The same as a law of every recorded run of a call |
| RegisterVote.OwnRunAnswers | internal/database/database.go:60-79 | However many statements a call that meets nobody is given, it is never found waiting and ends as the serial call |
| Tables.Int32IsCut | internal/film/repository.go:75-82 | The conversion of ids to int32 drops a multiple of 2^32 |
| Catalogue.OneDirectorRow | internal/database/queries/films.sql:17-32 | The director CTE yields exactly one row whether or not the director existed, so a valid film is inserted exactly when its id is new |
| Catalogue.BatchFailsIffInvalid | internal/film/repository.go:88-98 | A batch errs exactly when a row fails a check, and then changes nothing |
| Catalogue.BatchInsertsAbsent | internal/film/repository.go:65-99 | Without an error existing films are untouched, each new id has its first row, every director exists, and the count is the number of distinct new ids |
| Catalogue.BatchKeepsDirectors | internal/database/queries/films.sql:17-32 | If every film's director exists before a batch, so after it |
| Catalogue.BatchIsIdempotent | internal/database/queries/films.sql:29-32 | Repeating a batch inserts 0 and changes nothing |
| Catalogue.CountedButNotKept | internal/film/repository.go:86-98 | A count of one with an error and no film kept |
| Catalogue.CountIsOfValidPrefix | internal/film/repository.go:86-98 | With or without an error, the count is the number of distinct new ids before the first invalid row |
| Catalogue.CountIsKeptIff | internal/film/repository.go:86-98 | The count is the number of films added exactly when all rows are valid, or no row before the first invalid one has a new id |
| Candidates.FindCandidatesIsNearest | internal/database/queries/duels.sql:81-99 | Whatever way ties break in either ORDER BY, the answers are exactly the lists of the nearest min(n-1, max, max(min, W)) other films |
| Candidates.NoCandidatesIff | internal/database/queries/duels.sql:81-99 | The list is empty exactly when the winner is unknown or alone, and holds only other existing films |
| Candidates.PaddingLaw | internal/database/queries/duels.sql:96-99 | A film outside the window is returned only if fewer than min are inside, and then all of those are |
| Candidates.BetweenIsWindow | internal/database/queries/duels.sql:39-44 | ComposeDuel's BETWEEN and FindCandidates' distance test pick the same films |
| Candidates.ComposeFallsBack | internal/database/queries/duels.sql:39-60 | With no film in the window ComposeDuel may draw exactly from the sets of the min(n-1, 40) nearest other films |
| Candidates.QueriesAgree | internal/database/queries/duels.sql:35-60 | With min <= W <= max both queries offer the same films |
| Matchmaking.WeightAtLeastOne | internal/duel/service.go:89-95 | Every candidate's weight is at least one |
| Matchmaking.NewFilmIsBoosted | internal/duel/service.go:89-95 | A film below the duel threshold weighs the boost times an equally popular film at or above it, if the boost exceeds one, and the same if not |
| Matchmaking.PopularityAdds | internal/duel/service.go:90 | An established film of popularity zero weighs one, and each unit of popularity adds the popularity weight |
| Matchmaking.DrawFromCandidates | internal/duel/service.go:97-113 | The candidate drawn is the first whose cumulative weight passes the random number, or the last; none exactly for an empty list |
| Matchmaking.DrawIsInverseCdf | internal/duel/service.go:105-112 | With a positive total the index drawn is exactly the one whose interval holds r, the fall-through is not taken and weight zero is not drawn |
| Matchmaking.IntervalsCover | internal/duel/service.go:105-111 | The intervals cover [0, total) |
| Matchmaking.IntervalsDisjoint | internal/duel/service.go:105-111 | The intervals do not overlap |
| Matchmaking.ChanceIsShareOfWeight | internal/duel/service.go:97-113 | The random numbers in [0, 1) that draw a candidate are an interval whose length is its share of the total weight |
| Matchmaking.AllZeroDrawsLast | internal/duel/service.go:112 | With all weights zero the last candidate is drawn |
| Matchmaking.EveryCandidateIsDrawn | internal/duel/service.go:115-125 | Every candidate returned on a reachable table is drawn for some random number |
| Matchmaking.DrawOpponent | internal/duel/service.go:125 | The opponent drawn is the candidate in whose interval of weight the random number falls |
| Matchmaking.DuelFromFilm | internal/duel/service.go:115-137 | Fails with NoCandidates exactly when there are none (unknown or only film), and otherwise stores a duel of the film with the other existing film that the random number draws by weight |
| Paging.IndexIsIndex | internal/database/queries/films.sql:65 | Every film table has one strictly sorted listing of exactly its films |
| Paging.GetFilmsPaginatedByRating | internal/film/repository.go:149-170 | The repository call returns the page of the query, or the database's refusal of a negative limit |
| Paging.GetRankedPage | internal/film/service.go:40-46 | The response holds the page, best rated first and the greater id first among equals, and the parameters of the next one: its last row and the same size; an error exactly for a size negative as int32 |
| Paging.PageShows | internal/database/queries/films.sql:61-66 | A page holds at most the limit of films of the table, best rated first, each rated below the cursor's rating or equal with a smaller id |
| Paging.PageLeavesOut | internal/database/queries/films.sql:61-66 | A film below the cursor is left out only if the page is full and it ranks below the last row |
| Paging.FirstPageLeads | internal/database/queries/films.sql:65 | Without a cursor the first film is one that no film out-rates |
| Paging.TopIsBestRated | internal/film/repository.go:149-170 | In every reachable state the list opens with a best rated film |
| Paging.PageOmits | internal/database/queries/films.sql:61-66 | An eligible film is left out only if the page is full and ends before it |
| Paging.PagesListCatalogue | internal/film/film.go:44-57 | Following the cursor through a fixed table lists it whole, in order, without gap or repeat, then meets an empty page, in as many pages as it takes |
| Paging.CatalogueIsRanked | internal/database/queries/films.sql:65 | The whole list has the ratings in descending order, and the ids among equal ratings |
| Paging.PagingEndsIff | internal/film/repository.go:153-158 | Paging a fixed table ends exactly when no page ends with the film whose id is 0, for every size that is still positive when cut to int32 |
| Paging.CatalogueListedIff | internal/film/repository.go:149-158 | For every size, the whole table is listed and the list then ends exactly when the size is positive after the cut to int32 and no page ends with the film whose id is 0 (an empty table may also be asked for no rows) |
| Paging.HugeSizesListNothing | internal/film/repository.go:150-152 | Size 2^31 is refused, size 2^32 answered with an empty page, and neither lists anything |
| Paging.ZeroFilmNeverEnds | internal/film/repository.go:153-158 | After one batch with a single film of id 0, that film is listed for ever, for every page size |
| Paging.ListedDecreases | internal/database/queries/films.sql:61-66 | With the table changing between requests, what is listed strictly decreases in (rating, id) |
| Paging.ListedIsRanked | internal/database/queries/films.sql:65 | The same in plain terms: no film is listed below one with a lower rating, whatever is voted in between |
| Paging.UnchangedListedOnceIff | internal/film/repository.go:149-170 | An entry present at every request is listed by the first empty page, and exactly once if and only if no page from the one that lists it on ends with the film whose id is 0 |
| Paging.UnchangedListedOnce | internal/film/repository.go:149-170 | So exactly once if no film has the id 0 |
| Paging.UnvotedFilmListedOnce | internal/film/repository.go:149-170 | A film nobody votes on while the list is browsed, among any votes and inserts, is listed with its rating: exactly once under the same condition, and so if no film has the id 0 |

## Left out

- SettledTotalStaysConstant: only continuations that insert no film, because a new film brings its own rating into the total.
- RegisterVote: every error of the driver is the one error DatabaseFailure, and a call still waiting for a lock when its turn is over counts as cancelled.
- DuelFromFilm: the random number, the generated duel id and the rows of the query are inputs; the rows may come from any earlier moment of the same history.
- FindCandidatesIsNearest: assumes 0 < min <= max, which the configuration loader enforces; created_at is not carried.
- Floating-point rounding: all ratings, weights and comparisons are exact reals.
- Postgres beyond the stated assumptions: snapshots, lock modes, foreign-key share locks of duel creation, a race of two batches on one new director, sequence exhaustion, a COMMIT whose outcome the client cannot learn.
- The closed flag of the batch results, and ExtractTx routing a call to the transaction in its context: each statement names its transaction instead.
- Users on votes, created_at orderings, and film columns other than id, rating, duel_count, popularity and director; their CHECKs are one input flag.
- InsertFilm, UpdateRating, CreateRandomDuel and the vote lists: they would add only easy members.
- The join with directors in the page query: it drops nothing, since every film's director exists.
- HTTP handlers, sessions, metrics, TMDB, administration and deployment.
