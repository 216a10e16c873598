# Verified model of the ISUPORTS score, ranking and billing engine

ISUPORTS lets the organizers of a tenant upload the scores of a competition as a CSV file, shows players the ranking,
and bills the tenant for every player who scored or looked at the ranking before the competition was finished. This
project models that engine as the Go application implements it, together with what has to agree with it: the ranking
handlers of the other four implementations, the generator of the initial data, the benchmark's own predictions of
bills, its error accounting, the frontend's pager, and the allocation of ids. `dafny verify dfyconfig.toml` checks it.

How the parts build on each other:

- **Rankings.** `Ranking` defines a ranking as each player's last row in a strict order and proves that the Go
  pipeline computes its pages; `RankingPorts` does so for Python, Ruby, Rust and Node. `LibrarySort` states what the
  languages' sorts promise (a rearrangement in order; stable or not), with an insertion sort as a witness, so that
  callers use the promise and nothing else. `ScoreCsv` covers the file format, from printing to the stored rows,
  `CsvFormat` says of every text whether it is accepted, without the functions that read it, and `EndToEnd` joins the
  two: the page can be told from the file alone.
- **Billing.** `Billing` proves the map loops equal to a definition by sets and to a sum per player, and says exactly
  how a report reacts to a visit or to another finish time.
- **One request at a time.** `TenantStore.Store` holds a tenant's tables as fields; its methods are the Go handlers.
- **All requests at once.** `ScoreProtocol` is a state machine in which every SQL statement, lock and unlock of every
  request is one step, any statement of an upload may fail, and `finished` is checked before the lock is taken.
  `ProtocolReads`, `ProtocolBills` and `ProtocolWrites` prove what requests see, answer and write over all its runs,
  `BillingStability` and `BillingChanges` exactly when a bill is final, `ProtocolAccess` who is refused, and
  `ProtocolSolo` that each request, undisturbed, does what its handler's contract says.
- **Independent computations of the bill.** `SeedData` (the generator, and the chunked stores that lose their last
  row), `AdminBilling` and `AdminWalk` (the administrator's pages and the walk over them), `OrganizerJob` and
  `JobBilling` (the concurrent job, and the check of the page sum after it) and `BillingCheck` (the check of a tenant's reports).
- **Around it.** `Pager`, `IdAllocation` and `Penalty`.

Where the code does not meet what one would expect of it, the model keeps the code, and a member states the exact
condition beside a concrete failure:

- A failing INSERT leaves a prefix of the batch published (`ProtocolReads.FailedInsertPublishesPrefix`). Wholeness is
  proved for runs in which no DELETE or INSERT fails; that readers never see a batch in progress needs no assumption.
- The bill of a finished competition can still change: through an upload that waited for the lock, through a visit
  that took its time before the finish, through a visit in the second of the finish, and through another finish.
  `BillingStability.Final` is the exact condition under which it cannot, unless it is finished again
  (`BillingChanges.BillIsFinalExactlyWhen`), and a run from the start of the service shows each failure. That a second
  finish can only raise the bill is true if and only if it takes a later time, which fails for two that overlap.
- A player who is disqualified between the check of a ranking request and its INSERT still leaves a visit
  (`ProtocolAccess.DisqualifiedLeavesNoVisitExactlyWhen`).
- The administrator's check of the page sum assumes that nobody else visits in time; `JobBilling.AllForeseen` is the
  exact condition under which it succeeds.
- `webapp/sql/init.sql` resets the id generator to a number that is ten times too small
  (`IdAllocation.DispensedAreApart`, `IdAllocation.ResetCanCollide`).
- A negative `rank_after` is an error in Ruby and means the first page elsewhere; a line without two columns is an
  error in Go and skipped in Python (`RankingPorts.RubyRanking`, `ScoreCsv.GoAcceptsWithoutMalformed`).

Two members mark limits that no real run reaches: the product of points and percentage exceeds 64 bits only for more
points than a load can earn (`Penalty.DeductionIsExact`, `Penalty.OverflowKeepsScore`), and an organizer job that is
configured to upload nothing would report everybody as scored, but all callers configure one upload
(`JobBilling.JobRaisesBill`).

## Model

| member | source | states |
|---|---|---|
| `Ranking.RankingIsUnique` | webapp/go/isuports.go:1398-1403 | two sequences that both list every player's last row in the order "score descending, then earlier row" are the same sequence |
| `Ranking.RankingExists` | webapp/go/isuports.go:1378-1403 | rows with distinct numbers have exactly one ranking |
| `Ranking.CollectRanks` | webapp/go/isuports.go:1378-1397 | the scan down the row numbers with first-seen dedup yields one entry for exactly each player's last row; it fails exactly when a row names a player who does not exist |
| `Ranking.Page` | webapp/go/isuports.go:1404-1418 | the paging loop returns ranks rank_after+1 to rank_after+100 of the ranking, for every rank_after, also negative or past the end |
| `Ranking.CompetitionRanking` | webapp/go/isuports.go:1368-1418 | select, dedup, unstable sort and paging together equal the set-level ranking page; an error exactly when some row's player is unknown |
| `Ranking.LatestScore` | webapp/go/isuports.go:1241-1259 | ORDER BY row_num DESC LIMIT 1 finds the player's last row, and nothing exactly when the player has no row |
| `Ranking.PlayerPageAgreesWithRanking` | webapp/go/isuports.go:1240-1271 | the player page shows a score exactly when the unpaged ranking has the player, there in exactly one place and with the same score |
| `Ranking.RenumberingKeepsPages` | webapp/go/isuports.go:1052-1055 | any strictly monotone renumbering of the rows (from 0, from 1, with gaps) leaves every page unchanged |
| `Ranking.EntriesCanBeSorted` | webapp/go/isuports.go:1398-1403 | the comparator is a proper strict order on the collected entries, so any library sort may be used with it |
| `RankingPorts.TwoStableSorts` | webapp/python/main.py:934-935 | sorting stably by row number and then stably by descending score ranks the entries |
| `RankingPorts.PythonRanking` | webapp/python/main.py:906-951 | the Python handler returns the page of the ranking |
| `RankingPorts.RustRanking` | webapp/rust/src/main.rs:1488-1527 | the Rust handler returns the page of the ranking |
| `RankingPorts.RubyPageIsPage` | webapp/ruby/app.rb:804-811 | drop, take and map.with_index are the paging loop, for rank_after of zero or more |
| `RankingPorts.RubyRanking` | webapp/ruby/app.rb:779-811 | the Ruby handler returns the page of the ranking; it fails exactly when a player is unknown or rank_after is negative |
| `RankingPorts.NodePage` | webapp/node/src/main.ts:1399-1408 | the forEach with its two early returns is the paging loop |
| `RankingPorts.NodeRanking` | webapp/node/src/main.ts:1369-1408 | the Node handler returns the page of the ranking although its comparator never answers zero |
| `ScoreCsv.IntRoundTrip` | bench/models.go:198 | every 64-bit number survives printing and parsing |
| `CsvFormat.ParsesExactly` | webapp/go/isuports.go:1077-1083 | a text is read as a number if and only if it is an optional sign and one or more decimal digits whose positional value, with the sign, fits 64 bits |
| `CsvFormat.SplitExactly` | webapp/go/isuports.go:1037-1038 | the lines of a text, and the fields of a line, are exactly the pieces without a separator that separators turn back into it |
| `ScoreCsv.PrintCsv` | bench/models.go:195-201 | the concatenating loop prints the header and one line per row |
| `ScoreCsv.PrintedRecords` | bench/models.go:195-201 | reading a printed file gives the header record and exactly the rows' records, in order |
| `ScoreCsv.UploadRoundTrip` | webapp/go/isuports.go:1037-1083 | a printed file is accepted exactly when all its players exist, and then parses to exactly the rows it was printed from |
| `CsvFormat.UploadJudged` | webapp/go/isuports.go:1037-1083 | every text: accepted as rows if and only if its first non-empty line is the header and every other one is an existing player, a comma and a 64-bit numeral; rejected with an error if and only if the header or the first line that is no such row calls for that error |
| `CsvFormat.OneVerdict` | webapp/go/isuports.go:1037-1083 | every text is a score file of exactly one list of rows, or rejected, never both |
| `ScoreCsv.AllRecordsChecked` | webapp/go/isuports.go:1054-1083 | data rows are accepted exactly when every one of them is, and then row by row |
| `ScoreCsv.PythonSkipsMalformed` | webapp/python/main.py:687-692 | Python stores what Go would store of the file without the malformed lines, with strictly increasing numbers |
| `ScoreCsv.StoredRowsAgree` | webapp/ruby/app.rb:622 | whatever number an implementation starts from, and whatever lines Python skips, the stored rows are those of Go up to numbering |
| `ScoreCsv.GoAcceptsWithoutMalformed` | webapp/go/isuports.go:1063-1065 | Go accepts a file that Python accepts exactly when no line of it has other than two columns |
| `ScoreCsv.LineRanking` | webapp/go/isuports.go:1378-1403 | the ranking of an upload told by the file alone: each player's last line, higher scores first, then the earlier line |
| `EndToEnd.UploadedLinesAreRanked` | webapp/go/isuports.go:1037-1121 | printing, uploading, storing and ranking any score lines shows the lines' own ranking; other competitions keep their rows |
| `EndToEnd.PrintUploadAndRank` | webapp/go/isuports.go:1362-1418 | the same through the handlers, for every rank_after; the other competitions keep their rows |
| `EndToEnd.ImplementationsAgree` | webapp/rust/src/main.rs:1204 | the rows that the implementations store for one file have the same pages, for every rank_after |
| `EndToEnd.AllRankings` | webapp/node/src/main.ts:1369-1408 | the five handlers, each on the rows its own implementation stores for one file, answer with the same page, except that Ruby rejects a negative rank_after |
| `Billing.TotalOwedCounts` | webapp/go/isuports.go:596-609 | the sum over players of 100, 10 or 0 yen equals 100 per scored player plus 10 per unscored visitor |
| `Billing.BillIsSumOfCharges` | webapp/go/isuports.go:547-609 | the bill of a finished competition is the sum of what each player owes, over any roster; zero while it is not finished |
| `Billing.ReportFields` | webapp/go/isuports.go:589-609 | every field of the report: zero without a finish; otherwise the distinct players with a row, the players without one who visited no later than the finish, and 100 and 10 yen for each |
| `Billing.SelectFirstVisits` | webapp/go/isuports.go:547-558 | the MIN/GROUP BY query: each visitor's earliest visit and nobody else |
| `Billing.MarkVisitors` | webapp/go/isuports.go:559-566 | the first map loop marks exactly the players whose first visit is not after the finish |
| `Billing.MarkScored` | webapp/go/isuports.go:574-587 | the overwriting loop turns exactly the scored players into players, and leaves the other visitors |
| `Billing.CountCategories` | webapp/go/isuports.go:589-600 | the counting loop counts each category of the map, in any order of iteration |
| `Billing.BillingReportByCompetition` | webapp/go/isuports.go:541-610 | the handler's loops yield the report defined by sets, field by field: distinct scored players, unscored players with some visit in time, all zero while unfinished |
| `Billing.VisitChangesReport` | webapp/go/isuports.go:559-566 | a new visit changes the report if and only if the competition is finished, the visit is to it and not late, and its player has neither scored nor visited in time |
| `Billing.LaterFinishNeverLowersBill` | webapp/go/isuports.go:970-974 | moving the finish never lowers any bill if and only if the new time is not earlier |
| `Tables.ReplacedRows` | webapp/go/isuports.go:1101-1121 | DELETE and the INSERT loop put the new batch in place of one competition's rows and touch no other |
| `TenantStore.NumberedRows` | webapp/go/isuports.go:1052-1099 | the reading loop judges every line in order before anything is stored, and numbers lines from one; the first bad line decides the error |
| `TenantStore.UploadKeepsValid` | webapp/go/isuports.go:1067-1075 | storing checked lines keeps every stored row naming an existing player and row numbers distinct |
| `TenantStore.UploadVerdict` | webapp/go/isuports.go:1009-1083 | the answers of an upload in their order: unknown competition, finished competition, and then the judgement on the text alone, in both directions |
| `TenantStore.RankAfterRead` | webapp/go/isuports.go:1354-1360 | rank_after is zero when absent, the value of a 64-bit numeral, and otherwise an error |
| `TenantStore.Store.PlayersAdd` | webapp/go/isuports.go:773-834 | adds one player and changes nothing else |
| `TenantStore.Store.PlayerDisqualify` | webapp/go/isuports.go:836-880 | disqualifies exactly the named player, or reports that there is none |
| `TenantStore.Store.CompetitionsAdd` | webapp/go/isuports.go:896-938 | adds one open competition and changes nothing else |
| `TenantStore.Store.CompetitionFinish` | webapp/go/isuports.go:961-981 | sets the finish time of an existing competition, overwriting an earlier one; unknown competitions change nothing |
| `TenantStore.Store.CompetitionScore` | webapp/go/isuports.go:1009-1127 | the whole upload: unknown and finished competitions first; an open one takes exactly the texts that are score files of existing players, whose numbered lines then replace its rows, and answers every other text with the error its first wrong line calls for; a rejection leaves the table as it was |
| `TenantStore.Store.CompetitionRankingPage` | webapp/go/isuports.go:1319-1418 | an unknown viewer, a disqualified one and an unknown competition are answered with their errors and leave no visit; otherwise the visit is recorded (also when rank_after is malformed) and the page is served |
| `TenantStore.Store.PlayerPage` | webapp/go/isuports.go:1209-1271 | the errors of an unknown viewer, a disqualified one and an unknown player in this order; otherwise exactly the competitions in which the player has a row, each with the score of the last one |
| `TenantStore.Store.BillingReports` | webapp/go/isuports.go:1152-1168 | one report per competition, each as defined by sets |
| `ScoreProtocol.StepKeepsInv` | webapp/go/isuports.go:1046-1121 | every single statement, lock or unlock of any request keeps the invariant of lock, requests and tables |
| `ScoreProtocol.RunsKeepInv` | webapp/go/isuports.go:1046-1121 | the invariant holds after every interleaving, statements that fail included |
| `ScoreProtocol.StoredRowsStaySound` | webapp/go/isuports.go:1387-1390 | after every run from the start of the service each stored row names an existing player and no competition repeats a row number |
| `ProtocolReads.ReadsSeePublishedRows` | webapp/go/isuports.go:1362-1377 | a ranking or player read inside the lock, or the billing query for scores, sees exactly the rows the last upload to release the lock left (or the initial ones), never a batch in progress |
| `ProtocolReads.OnlyReleasesPublish` | webapp/go/isuports.go:1047-1051 | the rows that readers see change only when an upload to that competition that has deleted releases the lock |
| `ProtocolReads.SuccessPublishesTheFile` | webapp/go/isuports.go:1109-1126 | an upload that is answered with success publishes the numbered lines of its whole file |
| `ProtocolReads.ReleasePublishes` | webapp/go/isuports.go:1101-1121 | a release publishes the prefix of the batch stored so far, the whole batch exactly when the answer is success |
| `ProtocolReads.PublishedIsTheLastUpload` | webapp/go/isuports.go:1101-1121 | in every run, failing statements included, a competition shows its initial rows as long as no upload to it has released the lock after its DELETE, and otherwise what the last such upload stored of its file |
| `ProtocolReads.WithoutFailuresBatchesAreWhole` | webapp/go/isuports.go:1101-1121 | in every run without a failing DELETE or INSERT, a competition has its initial rows because no upload to it has released after its DELETE, or exactly the numbered lines of the whole file of the last such upload, which was answered with success |
| `ProtocolReads.ReadsSeeTheLastUpload` | webapp/go/isuports.go:1362-1377 | in such a run, whoever reads inside the lock sees for every competition its initial rows or the whole file of the last upload to release the lock |
| `ProtocolReads.FailedInsertPublishesPrefix` | webapp/go/isuports.go:1109-1121 | an INSERT that fails is not rolled back: the prefix stored before it is published, and it is not the file |
| `ProtocolReads.RankingsShowPublishedRows` | webapp/go/isuports.go:1362-1418 | for every moment before a ranking request issues its SELECT, also that of taking the lock, the page it serves is that of rows published at that moment or since; the player lookup never misses |
| `ProtocolReads.ServedPageWasPublished` | webapp/go/isuports.go:1362-1418 | an answer that stands at some moment is the page of rows published between the two moments, and stays the answer |
| `ProtocolReads.PlayerPageIsASnapshot` | webapp/go/isuports.go:1224-1271 | the scores a player page serves are together those of one moment since the request: in the published rows of exactly the competitions listed at an earlier moment since, an entry for each in which the player has a row and for no other, and the entry is the last row |
| `ProtocolBills.BillsShowPublishedRows` | webapp/go/isuports.go:541-610 | the report a billing request answers with is made of a finish, the visits and the published rows of three moments since the request, in this order |
| `ProtocolReads.ReaderKeepsTable` | webapp/go/isuports.go:1235-1239 | while a reader holds the lock nobody's step changes the scores |
| `ProtocolWrites.OnlyTheLockHolderWrites` | webapp/go/isuports.go:1047-1121 | only the DELETE and INSERT steps of the lock's holder change the score table |
| `ProtocolWrites.RejectedUploadWritesNothing` | webapp/go/isuports.go:1019-1083 | an upload that ends rejected changed the table in none of its steps, in every interleaving |
| `ProtocolWrites.WaitingUploadStoresItsFile` | webapp/go/isuports.go:1019-1051 | an upload past the finished check stores its file once it gets the lock, even if the competition has been finished meanwhile |
| `ProtocolWrites.UndisturbedUploadIsTheHandler` | webapp/go/isuports.go:1009-1127 | the single steps of an upload, undisturbed, do exactly what the handler's contract says |
| `ProtocolSolo.UndisturbedRankingIsTheHandler` | webapp/go/isuports.go:1319-1418 | the single steps of a ranking request, undisturbed, answer and record exactly what the handler's contract says, errors included |
| `ProtocolSolo.UndisturbedPlayerPageIsTheHandler` | webapp/go/isuports.go:1209-1271 | the same for a player page: the errors in their order, and otherwise the last row in every competition that has one and nothing else |
| `ProtocolSolo.UndisturbedBillIsTheHandler` | webapp/go/isuports.go:541-610 | the same for a billing request |
| `ProtocolSolo.UndisturbedFinishIsTheHandler` | webapp/go/isuports.go:961-981 | the same for a finish |
| `ProtocolAccess.BarredViewerLeavesNoVisit` | webapp/go/isuports.go:381-393 | in every run, a viewer who is unknown or disqualified throughout, and has no request past the check, records no visit |
| `ProtocolAccess.BarredViewerIsRefused` | webapp/go/isuports.go:1319-1321 | in every run, a ranking request or player page of a viewer who is unknown or disqualified throughout is never answered with success, and refused by its first step |
| `ProtocolAccess.DisqualifiedLeavesNoVisitExactlyWhen` | webapp/go/isuports.go:389-391 | once a player is disqualified, no run records a further visit of theirs if and only if no ranking request of theirs has already passed the check |
| `ProtocolAccess.DisqualifyRefuses` | webapp/go/isuports.go:389-391 | whatever happens after a disqualification, a request of the player that has yet to be looked at is refused as disqualified by its first step |
| `BillingChanges.BillIsFinalExactlyWhen` | webapp/go/isuports.go:559-609 | the report of a finished competition stays the same in every run that does not finish it again, if and only if the clock has passed the finish, every visit on its way from before the finish is of a player billed already, and no upload past the finished check can still change who has scored |
| `BillingStability.StepFinal` | webapp/go/isuports.go:559-609 | every single step keeps such a report, and keeps it final |
| `BillingStability.FinishedBillIsFinal` | webapp/go/isuports.go:559-609 | so does every run |
| `BillingStability.BillsReportTheFinalBill` | webapp/go/isuports.go:541-610 | every billing request that arrives then is answered with that report, however its statements interleave |
| `BillingChanges.LateUploadChangesFinishedBill` | webapp/go/isuports.go:1019-1047 | from the start of any service with an open competition and a player new to it, a run after which one waiting upload is all that is on its way, the clock has passed the finish, and yet some run changes the bill |
| `BillingChanges.LateVisitRaisesFinishedBill` | webapp/go/isuports.go:1337-1352 | the same with one visit that took its time before the finish: recording it raises the bill by 10 yen |
| `BillingChanges.SameSecondVisitChangesFinishedBill` | webapp/go/isuports.go:970-974 | the same with nothing on its way but a clock that has not passed the finish |
| `BillingStability.SecondFinishNeverLowersBill` | webapp/go/isuports.go:970-974 | a finish whose request begins after the first one was stored can only raise the bill of the same tables |
| `BillingChanges.OverlappingFinishesLowerBill` | webapp/go/isuports.go:970-974 | from the start of any service with an open competition and a player new to it, a run in which two finishes overlap, the earlier time is stored last, and the bill falls |
| `SeedData.StoreInChunks` | data/data.go:301-317 | the chunk loop stores every row but the last; it fails exactly for a single row |
| `SeedData.DropLastKeepsKeys` | data/data.go:234-247 | losing the last row loses no key if and only if the last row's key occurs before |
| `SeedData.LosingLastRowsKeepsReport` | data/data.go:234-247 | losing the last score row and the last visit changes no report when every key occurs at least twice and no visit is late |
| `SeedData.PlayerVisits` | data/data.go:482-494 | at least seven visits, none later than the end, although the loop bound is drawn anew each time |
| `SeedData.PlayerScores` | data/data.go:495-509 | at least ten scores of a player who takes part, none of one who does not |
| `SeedData.SortAndNumber` | data/data.go:522-527 | sorting and numbering keeps the scorers, gives distinct numbers from one, and keeps every key at least twice |
| `SeedData.CompetitionData` | data/data.go:464-528 | the visitors are exactly the players who had joined by the finish (all players while there is none), the scorers exactly those of them who drew to take part, and the running bill equals the application's report over the generated rows and visits |
| `SeedData.CreatePlayerData` | data/data.go:449-539 | the same for all competitions at once, and the tenant's total |
| `SeedData.AttendedIsBilled` | data/data.go:512-520 | so a finished competition costs 10 yen for each player who had joined by its finish and 90 more for each who takes part |
| `SeedData.StoreTenant` | data/data.go:218-320 | the whole inserts of players and competitions fail exactly for empty lists, the chunked ones exactly for a single row |
| `SeedData.SeedTenant` | data/data.go:259-320 | storing succeeds exactly for non-empty lists, although it loses two rows; over what is stored the visitors and scorers of each competition still are exactly the players who had joined by its finish and those who take part, the application computes the bills the benchmark was told, each 10 yen per joined player and 90 more per participant, and every ranking can be computed |
| `AdminBilling.TotalYenPick` | webapp/go/isuports.go:689-695 | the total of the reports does not depend on the order in which the competitions are read |
| `AdminBilling.TotalYenGrows` | webapp/go/isuports.go:689-695 | if no bill falls the total does not fall, and it stays only if every bill does |
| `AdminBilling.SumReports` | webapp/go/isuports.go:676-695 | the loop over a tenant's competitions adds up its bills |
| `AdminBilling.TotalYenWrite` | webapp/go/isuports.go:694 | changing one competition's bill changes the tenant's bill by the difference |
| `AdminBilling.TenantsBilling` | webapp/go/isuports.go:645-705 | without a cursor, or with zero, the page is the ten highest of all tenants, with another one the ten highest with a lower id, descending, each with its bill; an error exactly for a text that is no 64-bit numeral |
| `AdminBilling.PageWithoutCursor` | webapp/go/isuports.go:665-668 | the cursor zero excludes nobody |
| `AdminBilling.PageBelowCursor` | webapp/go/isuports.go:665-668 | any other cursor excludes exactly the tenants whose id is not lower |
| `AdminBilling.BeforeRead` | webapp/go/isuports.go:642-653 | an absent cursor is zero, otherwise the cursor is the value of a 64-bit numeral |
| `AdminWalk.ReadPage` | bench/scenario_admin_billing.go:75-100 | the client accepts a page exactly when its ids are 64-bit numerals none of which is higher than the one before (unless that is zero), and takes the last as the next cursor |
| `AdminWalk.PageAdvances` | bench/scenario_admin_billing.go:98 | a page takes the next ten tenants still to come and leaves a strictly lower cursor |
| `AdminWalk.WritesStayAbove` | bench/scenario_admin_billing.go:66-116 | a tenant added above all others is not below the cursor |
| `AdminWalk.AdminBillingScenario` | bench/scenario_admin_billing.go:66-116 | a completed walk has shown every tenant that was there at its first page (below its start, if it has one), each once, in descending order, in n/10 pages rounded up and an empty one, through failing requests and tenants added between pages; from the empty cursor that includes everybody who was there at the beginning |
| `AdminWalk.WalkCompletes` | bench/scenario_admin_billing.go:66-116 | what completion means for the bills shown, told by the starting text and the tenants at the first page |
| `OrganizerJob.ListPlayers` | bench/job_organizer.go:43-71 | the key set and the shared slice are the ids of the capped prefix of the list, in order, and the qualified ids exactly those of it that are not disqualified |
| `OrganizerJob.DistinctPlayerIDs` | bench/models.go:203-215 | PlayerIDs lists every player of the scores once |
| `OrganizerJob.JobRunsKeepInv` | bench/job_organizer.go:103-208 | in every interleaving, with any visits by others, every id in the shared slice is a key of players, so no lookup yields nil, and no upload is refused |
| `OrganizerJob.AddsThePicks` | bench/job_organizer.go:168-179 | a round adds, behind the scores so far, exactly one for each pick, of the player the shared slice has at its index |
| `OrganizerJob.SendsTheScores` | bench/job_organizer.go:180-206 | an upload stores exactly the lines of the scores, and the next round follows or the job is done |
| `OrganizerJob.WorkerSeesTheRanking` | bench/job_organizer.go:135-147 | a worker's request is recorded as a visit and answered with the first hundred of the ranking |
| `OrganizerJob.JobCanFinish` | bench/job_organizer.go:166-208 | with a player to pick, some run gets through any number of rounds, and so to the end |
| `JobBilling.RunsKeepOthers` | bench/job_organizer.go:103-208 | in every interleaving the report of another competition is what it was if and only if none of the visits by others adds a visitor to it; its bill never falls |
| `JobBilling.BilledForScoresOnly` | bench/scenario_admin_billing_validate.go:104-110 | a finished competition is billed 100 yen per scored player and nothing else if and only if everybody who visited in time has scored |
| `JobBilling.JobBill` | bench/job_organizer.go:234-260 | the job's competition is billed 100 yen for each player the job reports as scored if and only if nobody else visited it in time |
| `JobBilling.JobRaisesBill` | bench/job_organizer.go:234-260 | in every interleaving of a job that uploads, the tenant's bills are the old ones and 100 yen for each player it reports as scored, if and only if no visit by others was unforeseen; otherwise they are higher |
| `JobBilling.NewCompetitionBillsNothing` | webapp/go/isuports.go:602-609 | adding the open competition bills nothing |
| `JobBilling.PageSumRises` | bench/scenario_admin_billing_validate.go:86-131 | the page below a cursor shows the same tenants after the job and its sum rises by exactly what the target's bill rises, even if tenants were added above |
| `JobBilling.PageSumRisesByJob` | bench/scenario_admin_billing_validate.go:86-131 | in every interleaving of a job that uploads, the page sum has risen by 100 yen for each player it reports as scored, if and only if no visit by others was unforeseen |
| `JobBilling.AdminBillingValidate` | bench/scenario_admin_billing_validate.go:86-131 | after such a job, the administrator's check of the sum succeeds if and only if no visit by others was unforeseen |
| `BillingCheck.RoundAdds` | bench/scenario_tenant_billing_validate.go:150-222 | a further competition adds its predicted report and changes no earlier one |
| `BillingCheck.RoundPlayed` | bench/scenario_tenant_billing_validate.go:138-222 | a round plays its competition as drawn, and the competitions before it stay as they were played and predicted |
| `BillingCheck.TenantBillingValidate` | bench/scenario_tenant_billing_validate.go:116-272 | for any number of competitions and every split that is drawn: each competition has finished with the first players scored, the next ones as visitors and nobody else, and the predicted reports, 100 yen for each scored player and 10 for each visitor, equal the billing page after every round, given a clock that never runs backwards |
| `Pager.PagerLoader.Fetch` | frontend/src/assets/hooks/usePagerLoader.ts:26-57 | one fetch: cursor and end flag after a full, short, empty or failed page |
| `Pager.EveryoneIsRankedOnce` | webapp/go/isuports.go:1378-1403 | the ranking holds every scored player once |
| `Pager.PageLoads` | frontend/src/assets/hooks/usePagerLoader.ts:39-52 | an answered fetch appends the next stretch of the ranking and moves the cursor to its last rank |
| `Pager.LoadRanking` | frontend/src/assets/hooks/usePagerLoader.ts:16-58 | fetching until there is no more concatenates to the whole ranking of n players, in exactly n/100 (rounded down) + 1 answered fetches, whatever requests fail in between |
| `IdAllocation.HexIsInjective` | data/data.go:181 | different numbers have different texts |
| `IdAllocation.FixedIDsAreApart` | data/data.go:397-408 | fixed ids, with their leading zeros, equal neither each other nor any generated or dispensed id |
| `IdAllocation.IdGenerator.GenID` | data/data.go:158-182 | it succeeds exactly for times after the epoch and up to now in seconds that are not used up; the id is new and below maxID, whose panic is reached only for later times |
| `IdAllocation.GenerateIDs` | data/data.go:158-182 | any run for such times yields one distinct text for each, unless some second is asked for an id after its highest one has been issued |
| `IdAllocation.IdTable.DispenseID` | webapp/go/isuports.go:101-124 | an id comes out exactly when the first outcome other than a deadlock, within a hundred tries, is an insertion; it is higher than all before |
| `IdAllocation.DispensedAreApart` | data/data.go:73-77 | starting the dispenser at a number keeps it clear of all ids the seed data can contain if and only if the number is at least maxID - 1 |
| `IdAllocation.DispensedTextsAreApart` | data/data.go:252-257 | after storeMaxID no dispensed id equals a seeded one |
| `IdAllocation.ResetCanCollide` | webapp/sql/init.sql:3-4 | the reset to 2678400000, a tenth of maxID, lets the next id be one the seed data can contain |
| `Penalty.ValidateResponse` | bench/validation.go:76-112 | exactly one validation error is recorded for a failed response, none for a good or cancelled one |
| `Penalty.Classify` | bench/cmd/bench/main.go:109-157 | each error is counted under the first kind its codes have |
| `Penalty.CountsByCodes` | bench/cmd/bench/main.go:109-157 | these counts are the numbers of errors told by their codes alone; the last kind is the errors with none of the benchmark's own codes |
| `Penalty.Settle` | bench/cmd/bench/main.go:190-218 | exit exactly when some error has none of the benchmark's own codes; otherwise the counts by codes, the deduction of 1 and 10 percent rounded down and never below zero, and a pass if and only if points are left and there is no fail log; in 64-bit arithmetic |
| `Penalty.DeductionIsExact` | bench/cmd/bench/main.go:204-205 | the deduction is the stated percentage rounded down if and only if the product fits 64 bits |
| `Penalty.RunsKeepLoadInv` | bench/scenario.go:267-320 | in every schedule each counted or pending signal has its own earlier validation error |
| `Penalty.ShownErrorsAreValidationErrors` | bench/cmd/bench/main.go:194-207 | in every run normal and critical errors sum to the validation errors, and the correcting branch is never needed |
| `Penalty.VerdictOfRun` | bench/cmd/bench/main.go:192-214 | every run: the score is what was earned less a percent for each validation error and nine more for each critical one counted, as long as the product fits 64 bits, and the run passes if and only if points are left and it was not cut off |
| `Penalty.CleanRunPasses` | bench/cmd/bench/main.go:192-214 | a run without a broken answer and without a complaint keeps every point, and one point is enough to pass |
| `Penalty.CutOffScoresZero` | bench/scenario.go:310-318 | every run cut off at 100 penalty points fails and deducts at least 100 percent; below the 64-bit limit its score is zero, and every run's score lies between zero and what was earned |
| `Penalty.OverflowKeepsScore` | bench/cmd/bench/main.go:204-212 | why that limit is there: a run cut off at exactly 100 percent would keep 2^62 points |
| `Penalty.CriticalRun` | bench/scenario.go:292-313 | such a run exists: ten critical errors, one after the other |
| `Penalty.FailureIsCounted` | bench/scenario.go:267-320 | a failed request whose signal Load receives is counted as what it is and leaves one validation error; the load goes on if and only if its counts stay below a hundred |

## Left out

- HTTP routing, JSON, cookies, tokens, roles, SQL engines, file locks and shell commands: requests reach the
  model as method calls or steps, statements as operations on tables, the lock as an owner.
- Lookups that always succeed for a well-formed request (the tenant's row, the competition's title in a report), and
  the ids and timestamps of rows, which no report or page depends on.
- The order of competitions in lists: competitions, and the reports over them, are maps; sums are proved independent
  of the order.
- Quoted CSV fields: a line with a quotation mark counts as malformed. Section 2 of RFC 4180 is modelled for plain
  fields; ids without comma, quotation mark or line break are what the round trip is proved for.
- Number and truth-value quirks of the other languages: prefixes that parse as numbers and imprecise large numbers in
  JavaScript, a finish time of zero in Python, Node refusing a file without data rows.
- Errors of statements other than an upload's DELETE and INSERT, of locking, and of the id dispenser inside an
  upload: they end the request before it has written any score.
- A malformed rank_after inside the state machine: it is modelled in the handler that runs alone.
- Names are looked up one by one in the code and together in the state machine; no request changes a name.
- The capacity of the error channels, and workers that block on a full one after the load has ended; worker counts, sleeps, timeouts and logging.
- Random content: names, titles and score values only matter through their ranges, and every value in range is
  covered.
- A clock that is moved back while seed data is generated; the generator's clock stands still.
- ScoreProtocol.RunsKeepInv: takes the batch of a request as given by its file; a file that cannot be read is one with
  an error.
- IdAllocation.IdGenerator.GenID: after a failure nothing is promised, since a panic or fatal error ends the program.
- OrganizerJob.JobRunsKeepInv: requests are atomic there; that is what the state machine's results about readers
  justify. A job that ends early because a request of its own fails has no result and is not followed further.
- AdminWalk.AdminBillingScenario: says which tenants are shown and in which order; the amounts on each page are the
  business of AdminBilling.TenantsBilling, since bills may change while the walk runs.
- Pager.LoadRanking: one fetch at a time, against an unchanged table.
- The billing reports of the other four implementations: they repeat the Go loops.
- The interleaving of mutexes inside the benchmark other than the organizer job's, agents and accounts.
