# RS Scanner data core: models and proofs

The repository collects daily Korean stock prices, repairs gaps in them, rebuilds the historical universe of
listed shares, freezes backtest datasets and ranks shares by relative strength (RS). These Dafny modules model
the parts of it that carry state, branching or arithmetic, and prove what those parts are meant to guarantee.

| files | component |
|---|---|
| `RepairTables`, `RepairProtocol`, `RepairQueue` | the Sam repair queue: a lease and fencing protocol over requests, attempts and result rows |
| `PriceTable`, `RepairReconciler`, `RepairApplication` | canonical prices and the conflict-safe merge of completed repairs |
| `HistoryCollector`, `HistoryCompleteness`, `HistoryEndings`, `HistoryAccounts` | the page-by-page history collector as a resumable generator: what it emits, counts and ends with |
| `BackfillPlan`, `BackfillState`, `BackfillSession`, `Backfill` | the resumable backfill: frozen plans, checkpoints, one session as a function of its inputs, and the service that runs it |
| `BackfillSafety`, `BackfillCourse`, `BackfillTargets`, `BackfillFates` | what every session commits, how it goes on, and what becomes of its targets and its run |
| `BackfillTallies`, `BackfillObservations`, `BackfillReports` | what a session reports and observes, against what it did |
| `BackfillBudget`, `BackfillOverspend`, `BackfillLoss` | what a session spends, and which runs it loses |
| `ListingLedger`, `Universe`, `UniverseMeaning`, `UniverseReplay` | the append-only evidence ledger, its replay into dated membership, and what that says of the evidence |
| `Snapshot` | as-known-at price rows and their batched copy |
| `KrxLifecycles`, `KrxPlanner`, `KrxVerdicts`, `KrxReconciliation` | listing files to lifecycles, identity planning, which lifecycle goes where, applying a plan |
| `ProviderMappings`, `PriceTargets`, `PriceTargetMeaning`, `PriceSelection` | dated provider codes, dated price targets, per-market selection |
| `RsWindows`, `RsRanking`, `HistoricalRs`, `RsColumns` | the RS windows, ranks, ratings and scores, and the columns of a row |
| `RateLimits`, `CallLimiter`, `Intervals` | the sliding-window request limit and the shared call limiter |
| `Common` | options, filters, sums, stable sorting, ascending lists, loop-built dictionaries |

`dafny verify dfyconfig.toml` checks everything.

## How the source is read

- An object that updates its fields is a class here; each method is proved against a function of the old state,
  and the lemmas are about those functions and about whole sequences of them. Lemmas named `...Means` say what such a
  function computes without naming it: in terms of the rows, pages, evidence or prices it reads.
- Tables are sequences or maps. A commit copies the working state to the committed one; a rollback copies it back.
- Clocks, provider responses and sleeps are inputs, and so is which database call of a session raises, and where around
  its commit.
- A SHA-256 is the value it digests (no collisions); a claim token is a number never issued before.
- Dates are day numbers, instants are numbers on one axis, and codes, names and markets are numbers whose order
  stands for string order. Prices of the repair and backfill parts are integers in ten-thousandths, the scale of the
  columns; RS arithmetic is over the reals.
- Uniqueness that the schema enforces (primary keys, one price per symbol and day, one membership per instrument
  and day, one code per listing snapshot) appears as a precondition of the lemmas that need it.

## Where the code differs from what it seems to promise

Each of these is proved with its exact condition, or with a concrete input.

- A request requeued by lease expiry at its last attempt stays pending for ever and is never claimed
  (`RepairProtocol.PendingClaimableIff`, `RepairProtocol.ExhaustionCause`).
- A completed request is rejected exactly when a row lacks a change rate or the rows exceed the reconciler's own
  limit; the queue accepts rows without a change rate (`RepairApplication.RejectedIff`).
- Ingesting A, B, A leaves B current: re-ingested content becomes current only if it was current already
  (`ListingLedger.IngestBecomesCurrentIff`).
- A budget extension is flushed but not committed before the first target runs. If that target raises, the
  extension is rolled back while the session goes on spending it, so a commit can hold more usage than budget.
  Over all provider answers and raises no commit does, exactly when the run is not overspent even with the extension
  and (a) there is no extension, or (b) it leaves nothing to spend, or (c) the run was within its budget and no
  resolved target to be processed has another target to be processed before it, or the range is reversed, so that
  no iterator can be created, or (d) the run was not and there is no target to process
  (`BackfillOverspend.BudgetHoldsIff`; two targets that overspend, one that cannot:
  `BackfillOverspend.TwoTargetsOverspend`, `BackfillOverspend.OneTargetKeepsBudget`).
- A new run disappears with a rollback, and marking the target failed then raises out of `execute`, exactly when some
  target raises with nothing committed by it or the targets before it (`BackfillCourse.RunLostIff`). Every session on
  a new run that has a target to process and a request to spend can lose it (`BackfillLoss.CanBeLostIff`); it must
  exactly if the range is reversed and the first target is resolved (`BackfillLoss.MustBeLostIff`).
- The failures a session reports are never fewer than the targets that fail, and as many exactly if no commit of a
  failure mark raises: such a mark is counted, rolled back, and the target counted again by the handler
  (`BackfillReports.FailuresCountedIff`, `BackfillReports.FailureCountedTwice`).
- A counted request goes unrecorded exactly when the iterator itself raises after counting it, on a page it cannot
  parse (`BackfillCourse.UnrecordedIff`).
- Two valid open-started intervals overlap though they share no day exactly when one of them ends on the first day of
  the calendar; in all other cases the test is exact (`ProviderMappings.OverlapIffSharedDay`).
- With one eligible row the SQL period ratings are 1 and the overall rating is 99 (`RsRanking.LoneRowRatings`).
- The SQL rating and the rating of the portable calculator differ exactly when the scaled percentile lies half-way
  above an even number: one rounds halves up, the other to even (`RsRanking.RatingsAgreeIff`,
  `RsRanking.RatingsDisagreeExample`).
- Slots of the call limiter are an interval apart; calls that may wake up to a delay late are so for sure exactly when
  the slots leave room for that delay (`CallLimiter.ReleasesApartIff`, `CallLimiter.LateWakeUpsCollide`).
- The hit list of a client and path is found under one string, so two pairs can share a list although their limits
  differ; a window then holds up to the larger limit (`RateLimits.KeysCanBeShared`, `RateLimits.WindowHoldsLimit`).

## Model

| member | source | states |
|---|---|---|
| RepairProtocol.RunKeeps | app/repositories/crawl_repair_repository.py:57-404 | every run of enqueue, claim, expiry, complete, fail and marking keeps leases, attempts, numbering and result rows consistent |
| RepairProtocol.ReachableShape | app/repositories/crawl_repair_repository.py:160-238 | in every reachable state a request is processing exactly when it holds a token and a lease and then exactly its last attempt runs; attempts are numbered 1..attempt_count = claim_version <= max_attempts |
| RepairProtocol.ClaimsBounded | app/repositories/crawl_repair_repository.py:187-238 | claims granted over any run number at most the sum of max_attempts |
| RepairProtocol.Fencing | app/repositories/crawl_repair_repository.py:240-274 | if a token issued earlier is accepted now, the request was under that very claim, version and running lease at every moment since |
| RepairProtocol.ClaimAcceptedIff | app/repositories/crawl_repair_repository.py:240-274 | complete and fail are admitted exactly for the token in force, its version, before the lease ends; an admitted claim always finds its attempt |
| RepairProtocol.ClaimLasts | app/repositories/crawl_repair_repository.py:187-274 | a granted claim is admitted from the grant until its lease ends, and no longer |
| RepairProtocol.RefusalMeans | app/repositories/crawl_repair_repository.py:240-274 | which check a refused claim fails, each reason with its exact condition; the search for the running attempt never fails |
| RepairProtocol.TerminalForever | app/repositories/crawl_repair_repository.py:276-373 | a completed or failed request keeps its status, attempts and result rows through every later run, so it completes at most once |
| RepairProtocol.ResultsBelongToOneAttempt | app/repositories/crawl_repair_repository.py:299-319 | all result rows of a request belong to its one completed attempt, its last, and number its row_count |
| RepairProtocol.PendingClaimableIff | app/repositories/crawl_repair_repository.py:178-209 | a pending request can ever be claimed again exactly when attempts are left; otherwise it stays pending through every run |
| RepairProtocol.ExhaustionCause | app/repositories/crawl_repair_repository.py:160-185 | only a lease expiring on the last allowed attempt makes a request so stuck |
| RepairQueue.ExpireAllIsRun | app/repositories/crawl_repair_repository.py:170-185 | requeueing the expired rows is a run of single expiries, so it keeps what runs keep |
| RepairQueue.ExpireAllClears | app/repositories/crawl_repair_repository.py:160-185 | after the requeue no processing request has a lease that is out |
| RepairQueue.ExpireAllRequeues | app/repositories/crawl_repair_repository.py:160-185 | a request whose lease is out is ready again at once if attempts are left, and every other request stays as it is |
| RepairQueue.CrawlRepairRepository.Enqueue | app/repositories/crawl_repair_repository.py:57-110 | one request per dedupe key, refused for fewer than one attempt, a repeated key changing nothing |
| RepairQueue.CrawlRepairRepository.RequeueExpired | app/repositories/crawl_repair_repository.py:160-185 | exactly the requests whose lease is out return to pending with their running attempt failed, ready from now on if attempts are left |
| RepairQueue.CrawlRepairRepository.ClaimOne | app/repositories/crawl_repair_repository.py:187-238 | the oldest ready unlocked request, seen with or without the just requeued rows, is leased under a fresh token, in force exactly until the lease ends; an unnamed worker or a lease below one second is refused |
| RepairQueue.CrawlRepairRepository.Complete | app/repositories/crawl_repair_repository.py:276-331 | refused without effect unless the claim checks pass, else rows, attempt and request are settled together |
| RepairQueue.CrawlRepairRepository.Fail | app/repositories/crawl_repair_repository.py:333-373 | back to pending exactly when a retry is allowed and attempts are left, ready exactly from the retry delay on; else failed |
| RepairQueue.CrawlRepairRepository.SetApplicationStatus | app/repositories/crawl_repair_repository.py:375-404 | only the marker of the named request changes |
| RepairQueue.CrawlRepairRepository.CheckTables | app/repositories/crawl_repair_repository.py:240-274 | the claim checks in their order |
| RepairQueue.RepairQueueService.CheckRows | app/services/repair_queue.py:217-236 | the one-pass row loop accepts exactly valid rows with pairwise different dates |
| RepairQueue.RepairQueueService.Complete | app/services/repair_queue.py:178-267 | accepted exactly when the submission contract holds and its claim is in force; nothing changes otherwise |
| RepairQueue.SubmissionMeans | app/services/repair_queue.py:178-267 | the submission contract in plain terms: symbol, range, tool, mode, completeness, row count, rows and prices, dates once each, latest date and digest |
| PriceTable.UpsertedRows | app/repositories/price_repository.py:33-88 | the upsert writes exactly the incoming days and leaves every other row alone |
| PriceTable.HistoricalNeverAlters | app/repositories/price_repository.py:170-244 | without the update policy a historical save alters no existing canonical row |
| PriceTable.UpdatesStayWithProvider | app/repositories/price_repository.py:188-244 | an existing row changes only under the policy and only if the same provider wrote it |
| PriceTable.SavedValue | app/repositories/price_repository.py:188-244 | a missing day gets the incoming value, and a day is confirmed exactly when the stored value equals the incoming one |
| PriceTable.SavedOver | app/repositories/price_repository.py:188-244 | an incoming row over an existing one leaves it as it is, unless the policy lets its own provider correct the price |
| PriceTable.ConflictsCounted | app/repositories/price_repository.py:188-244 | the reported conflicts are the incoming rows whose day is left with another price |
| PriceTable.BreaksIff | app/repositories/price_repository.py:170-244 | the save breaks the table's uniqueness exactly when two incoming rows name one day that has no row yet |
| PriceTable.SavedKeys | app/repositories/price_repository.py:188-244 | rows exist afterwards for exactly the old and the incoming days |
| PriceTable.SaveCounts | app/repositories/price_repository.py:188-244 | every incoming row is counted once as inserted, updated, unchanged or conflicting, and confirmed unless conflicting |
| PriceTable.SaveGrows | app/repositories/price_repository.py:188-244 | the table grows by exactly the inserted rows |
| PriceTable.ConfirmedHaveRows | app/repositories/price_repository.py:188-244 | every confirmed day has a canonical row of that symbol |
| PriceTable.PriceRepository.SaveSymbolPrices | app/repositories/price_repository.py:33-88 | an unknown code is refused; else the plain upsert with its observation log, undone on a uniqueness violation |
| PriceTable.PriceRepository.SaveHistoricalPrices | app/repositories/price_repository.py:170-244 | every row is observed and disposed of by the conflict-keeping policy |
| RepairReconciler.DecidedOutcome | app/services/repair_reconciler.py:79-138 | a valid request is a conflict exactly when an existing price differs, else exactly the missing days are added |
| RepairReconciler.ApplyIsSafe | app/services/repair_reconciler.py:55-138 | no canonical price is ever changed or removed, and prices change only when a request is applied without conflict |
| RepairReconciler.OutcomeReports | app/services/repair_reconciler.py:97-138 | the result reports a conflict with exactly the differing days, each once and in order, or as many applied rows as the price table has gained |
| RepairReconciler.ReapplyChangesNothing | app/services/repair_reconciler.py:55-77 | applying again returns the recorded status and changes nothing |
| RepairReconciler.OrderDoesNotMatter | app/services/repair_reconciler.py:48-138 | valid requests agreeing with each other and with canonical prices are all applied in any order, and every order ends in the same prices |
| RepairApplication.FingerprintIff | app/services/repair_queue.py:74-101 | result fingerprints agree exactly on the same rows, in any order |
| RepairApplication.VouchedRun | app/services/repair_queue.py:178-267 | through every run, what the queue accepted still vouches for the stored rows of each completed request |
| RepairApplication.RejectedIff | app/services/repair_reconciler.py:140-184 | in every reachable queue state a completed request is rejected exactly when a change rate is missing or the reconciler's row limit is exceeded |
| RepairApplication.AcceptedIsNeverRejected | app/services/repair_reconciler.py:140-184 | a submission the queue accepts with change rates is never rejected, whatever steps follow; its outcome over exactly the submitted rows is applied or conflict |
| RepairApplication.MarkersAreRight | app/services/repair_reconciler.py:48-138 | however queue steps and applications interleave, a request carries a marker only once completed, and `rejected` exactly when a stored row lacks a change rate or the rows exceed the limit |
| RepairApplication.AcceptedIsNeverMarked | app/services/repair_reconciler.py:48-184 | a submission accepted with change rates is never marked rejected in any later state, and its rows stay as submitted |
| RepairApplication.Reconciler.Validate | app/services/repair_reconciler.py:140-184 | the validation accepts exactly the stated conditions on attempt and rows |
| RepairApplication.Reconciler.ApplyRequest | app/services/repair_reconciler.py:55-138 | the method computes the specified outcome and never alters an existing price |
| HistoryCollector.AnyProvider | app/crawler/sources/kiwoom_history.py:96-183 | whatever the provider does, the traversal ends within its budget, pages ascend and are date-disjoint, emitted = requested + preparation, received = emitted + duplicates + out of range |
| HistoryCollector.AbsorbCounts | app/crawler/sources/kiwoom_history.py:138-153 | per page, every received row is kept, a duplicate or a first sighting out of range |
| HistoryCollector.DrainFinishes | app/crawler/sources/kiwoom_history.py:96-183 | every traversal stops |
| HistoryEndings.EndingMeans | app/crawler/sources/kiwoom_history.py:96-183 | each terminal reason with its exact condition on what the provider served: the collection start reached, the provider exhausted, an anomaly, the budget, a failed or unsupported answer |
| HistoryEndings.SteadyConcludes | app/crawler/sources/kiwoom_history.py:169-183 | a provider that keeps serving new days under new keys is always read to a normal end by a budget above its number of rows |
| HistoryEndings.SteadyIsComplete | app/crawler/sources/kiwoom_history.py:96-183 | so every row of the range is emitted, exactly once |
| HistoryAccounts.EmissionMeans | app/crawler/sources/kiwoom_history.py:120-166 | each emitted page holds exactly the first row of each new day in range, pages are numbered by request, and received, invalid and requested count what they name |
| HistoryCompleteness.CompleteTraversal | app/crawler/sources/kiwoom_history.py:96-183 | against a consistent provider, ending at the collection start or at exhaustion means every provider row of the range was emitted exactly once, and nothing else |
| HistoryCompleteness.ResumeConcludes | app/crawler/sources/kiwoom_history.py:169-183 | a conclusive ending is justified by the page that was last yielded; when it happens is `HistoryEndings.EndingMeans` |
| HistoryCompleteness.KiwoomHistoryIterator.AbsorbRows | app/crawler/sources/kiwoom_history.py:138-153 | the row loop de-duplicates by date and counts as specified |
| HistoryCompleteness.KiwoomHistoryIterator.Next | app/crawler/sources/kiwoom_history.py:96-183 | resuming the generator takes the state machine from one suspension to the next |
| ListingLedger.LedgerIsChained | app/repositories/listing_history_repository.py:53-111 | any ledger built by ingestion is a set of linear chains, one per record, in which no content repeats |
| ListingLedger.ChainIsLinear | app/repositories/listing_history_repository.py:73-111 | each row supersedes the row of its record created just before it, and no two supersede the same one |
| ListingLedger.ReplayAddsNothing | app/repositories/listing_history_repository.py:60-72 | replaying any selection of ingested content, in any order and number, adds nothing |
| ListingLedger.IngestBecomesCurrentIff | app/repositories/listing_history_repository.py:60-111 | ingested content is current afterwards exactly when it was new or already current |
| ListingLedger.IngestMeans | app/repositories/listing_history_repository.py:53-111 | a statement is refused, found or added exactly by its own fields and the rows there; an added row supersedes the last of its record |
| ListingLedger.TimeTravel | app/repositories/listing_history_repository.py:131-146 | ingestion after t leaves the view as known at t unchanged |
| ListingLedger.CurrentIsHeads | app/repositories/listing_history_repository.py:131-146 | under a monotone clock the current view is exactly the set of chain heads |
| ListingLedger.ViewMeans | app/repositories/listing_history_repository.py:131-146 | the view holds of each record the row imported last among those known at the moment |
| ListingLedger.ViewOrdered | app/repositories/listing_history_repository.py:131-146 | it is read by instrument, effective day and row |
| ListingLedger.ListingHistoryRepository.IngestEvent | app/repositories/listing_history_repository.py:53-111 | a row is created exactly for valid content not stored yet, and the chains are kept |
| ListingLedger.ListingHistoryRepository.ListCurrent | app/repositories/listing_history_repository.py:131-146 | the dictionary loop yields the latest visible revision of each record in replay order |
| Universe.QuietStretch | app/services/historical_universe.py:131-140 | days without a transition leave the membership alone |
| Universe.BuildMeaning | app/services/historical_universe.py:60-163 | an entry exists exactly when folding all transitions up to its day leaves the instrument listed in a requested market on a trading day; entries are strictly ordered, one per instrument and day |
| UniverseMeaning.MembershipMeans | app/services/historical_universe.py:165-189 | a membership read off the evidence: listed exactly when the last listing, end of a listing or delisting up to the day is a listing; market, evidence and status are those of the last act that names one |
| UniverseMeaning.UniverseMeans | app/services/historical_universe.py:60-163 | the universe is exactly one entry for each trading day of the window and each candidate that the evidence shows listed in a requested market, with its status and expectation; expected prices and unknown instruments likewise |
| Universe.BuildWindow | app/services/historical_universe.py:60-163 | the entries of a window are those of any larger window, restricted |
| Universe.UniverseTimeTravel | app/services/historical_universe.py:60-114 | evidence ingested after t leaves the universe as known at t unchanged |
| UniverseReplay.MembershipState.ApplyTransitions | app/services/historical_universe.py:165-189 | one day's endings, then its beginnings |
| UniverseReplay.SkipTo | app/services/historical_universe.py:131-140 | the fast-forward over transition days reaches the day-by-day state before the window |
| UniverseReplay.FastForward | app/services/historical_universe.py:131-140 | having lived through the transition days is having lived through every day between them |
| UniverseReplay.EntriesForInstrument | app/services/historical_universe.py:117-163 | the mutable replay yields exactly the day-by-day entries of its window |
| UniverseReplay.BuildUniverse | app/services/historical_universe.py:60-114 | the whole build computes the specified manifest |
| Snapshot.LatestObservationWins | app/services/backtest_snapshot.py:113-128 | as known at a moment, each symbol and day has exactly one row, the one of greatest (observed_at, id) |
| Snapshot.RowMeans | app/services/backtest_snapshot.py:113-128 | in terms of the observations: a row is of a requested instrument and day, known by the moment, with none of its symbol and day made later or entered later at once |
| Snapshot.LaterObservationsIgnored | app/services/backtest_snapshot.py:113-128 | observations made after the moment change no row |
| Snapshot.CollectPriceRows | app/services/backtest_snapshot.py:113-128 | the overwriting dictionary loop computes those rows |
| Snapshot.DatasetTable.InsertAll | app/services/backtest_snapshot.py:200-229 | rows are copied in order, none lost or repeated, in full batches but for the last |
| BackfillPlan.StorageRoundTrip | app/services/historical_backfill.py:50-155 | restoring a stored plan and storing it again gives the same document |
| BackfillPlan.ResolvedCodeIsUnique | app/services/historical_backfill.py:88-132 | a provider code is resolved exactly when it alone covers every expected date |
| BackfillPlan.PlanConserves | app/services/historical_backfill.py:88-132 | the expected dates over all targets number the manifest's expected prices |
| BackfillPlan.PlanPartitions | app/services/historical_backfill.py:88-132 | every expected (instrument, market, date) is in exactly one target, in order, and targets hold nothing else |
| BackfillPlan.PlannedIdentity | app/services/historical_backfill.py:109-127 | a target carries a code exactly when that code alone is matched to its instrument on all its expected dates, and a symbol exactly when one symbol row, at one place, owns its instrument |
| BackfillPlan.PlanFromManifest | app/services/historical_backfill.py:88-132 | the planning loops compute those targets |
| BackfillState.DatesPartition | app/repositories/historical_backfill_repository.py:76-94 | confirmed and remaining dates partition the expected dates in their order |
| BackfillState.RestoredPlanResumes | app/repositories/historical_backfill_repository.py:19-54 | the plan restored from a stored run is always accepted on resume, whatever its budget has become |
| BackfillState.ResumeIff | app/repositories/historical_backfill_repository.py:25-28 | a plan is accepted on resume exactly when it agrees with the stored manifest outside its targets and lists the same targets, those of each instrument in the same order |
| BackfillState.PageKeeps | app/services/historical_backfill.py:241-252 | saving a page with its checkpoint keeps confirmed dates backed by prices and alters no existing price |
| BackfillState.FailureKeeps | app/repositories/historical_backfill_repository.py:96-106 | marking a failure keeps the date partition, whatever dates remain |
| BackfillState.CollectedKeeps | app/repositories/historical_backfill_repository.py:108-122 | marking collection complete keeps remaining dates as they are |
| BackfillSafety.ExecuteSound | app/services/historical_backfill.py:171-284 | whatever raises and wherever the session ends, each state it commits, page by page, is valid and only adds to the one before |
| BackfillSafety.HistoryFollows | app/services/historical_backfill.py:171-313 | the same over any sequence of sessions and reconciliations |
| BackfillSafety.CommittedIsDurable | app/services/historical_backfill.py:171-313 | in any committed state a confirmed date has a canonical price and confirmed and remaining dates split the expected ones; in every later committed state it is still confirmed at the same price and usage has not fallen |
| BackfillCourse.LineIsTraversal | app/services/historical_backfill.py:228-255 | unless something raises, the pages are the whole traversal, each request is recorded and the recorder's clamp never binds |
| BackfillTargets.LineMeans | app/services/historical_backfill.py:228-255 | the pages of a target end with the first one that has an expected day and whose save raises; without it they are the whole traversal, broken off by the iterator exactly if it has no terminal reason |
| BackfillCourse.UnrecordedIff | app/services/historical_backfill.py:230-255 | a counted request goes unrecorded exactly when the iterator raises after counting it, on a page it cannot parse |
| BackfillCourse.AttemptFollows | app/services/historical_backfill.py:217-270 | what a target leaves of the budget, whether it raises and whether it commits are settled by its dates, the provider's answers and the raises alone |
| BackfillCourse.RunLostIff | app/services/historical_backfill.py:180-279 | a session loses its run exactly when the run is new and some target raises with nothing committed by it or by the targets before it |
| BackfillLoss.CanBeLostIff | app/services/historical_backfill.py:180-279 | over all provider answers and raises, a session can lose its run exactly when the run is new and there is a target to process and a request to spend |
| BackfillLoss.MustBeLostIff | app/services/historical_backfill.py:180-279 | it loses the run in every session that gets past opening exactly when, besides, the range is reversed and the first target is resolved |
| BackfillBudget.SpendingIsAuthorized | app/services/historical_backfill.py:180-255 | used and left never exceed what was authorized, also on a run overspent before, and add up to it exactly while nothing raises |
| BackfillOverspend.BudgetHoldsIff | app/services/historical_backfill.py:180-284 | over all provider answers and raises every commit keeps usage within the budget exactly in the cases listed above |
| BackfillOverspend.LostExtensionOverspends | app/services/historical_backfill.py:271-279 | whenever one target can raise before a resolved one is collected, a session ends with the whole extension spent and the old budget stored |
| BackfillOverspend.TwoTargetsOverspend | app/services/historical_backfill.py:180-284 | a run of two targets brought to 8 requests on a stored budget of 5 |
| BackfillOverspend.OneTargetKeepsBudget | app/services/historical_backfill.py:180-284 | the same run with one target never overspends |
| BackfillTargets.SaveConfirms | app/repositories/price_repository.py:188-244 | a save confirms exactly the saved days whose canonical price agrees |
| BackfillTargets.PageTakesIn | app/services/historical_backfill.py:230-252 | page by page, exactly the expected days whose emitted row agrees with the canonical price become confirmed, and every expected day emitted has a price |
| BackfillTargets.CollectedMeansServed | app/repositories/historical_backfill_repository.py:108-122 | against a consistent provider, a collected target has an expected day of the range confirmed exactly when it was before or the provider's row of the day agrees with the canonical price |
| BackfillTargets.PagesTake | app/services/historical_backfill.py:228-279 | after the pages of a target, and the rollback if one raised, exactly the days of the saved pages that agree with canonical prices are confirmed, and no price of another symbol has changed |
| BackfillTargets.FateExtends | app/services/historical_backfill.py:204-279 | what later targets add to the prices changes nothing about earlier ones |
| BackfillTargets.FateOf | app/services/historical_backfill.py:204-279 | what becomes of a target the provider is asked for: failed with the literal reason, completed at a normal end, or left running, completed or as it was by its saved pages; every saved page and every failure is an attempt |
| BackfillTargets.FateOfUntried | app/services/historical_backfill.py:217-227 | a target without a provider code or symbol is stored as failed for its identity, or for the raise that prevents that |
| BackfillFates.SessionFates | app/services/historical_backfill.py:171-284 | a session that returns has dealt with its targets in order, each with the budget those before it left, until nothing was left; what became of each, the run's status, the completed count and whether anything raised are read off the inputs |
| BackfillFates.FailureIsStored | app/services/historical_backfill.py:171-321 | whatever fails in a session is stored as failed with its reason, and then the run does not end as completed |
| BackfillFates.OutcomeMeans | app/services/historical_backfill.py:180-205 | a session is refused exactly for another manifest, or for an extension of a new or dry run; a dry run stores its status and nothing else |
| BackfillFates.StartMeans | app/repositories/historical_backfill_repository.py:19-58 | a session starts from the stored run, or from a new one with a pending target for each planned one |
| BackfillFates.ReconcileMeans | app/services/historical_backfill.py:286-321 | reconciling completes exactly the running targets whose first expected day is confirmed and ends the run once every target is completed or failed |
| BackfillTallies.AttemptCounts | app/services/historical_backfill.py:217-279 | what one target adds to the failed and unsupported counts |
| BackfillObservations.LoopObserves | app/services/historical_backfill.py:228-252 | every emitted row of an expected day becomes one observation, in order, unless its page is rolled back |
| BackfillReports.SessionReports | app/services/historical_backfill.py:171-284 | the report of a session that returns: its counts are sums over the targets dealt with, and if nothing raised the inserted rows are the new prices and the conflicts the observations with another price |
| BackfillReports.FailuresCountedIff | app/services/historical_backfill.py:217-279 | reported failures are as many as failing targets exactly when no commit of a failure mark raises |
| BackfillReports.FailureCountedTwice | app/services/historical_backfill.py:217-279 | one unresolved target whose mark is rolled back, counted twice |
| Backfill.HistoricalBackfillService.RecordUsage | app/services/historical_backfill.py:323-337 | the counted requests are added to usage and taken from the budget as far as it reaches |
| Backfill.HistoricalBackfillService.SavePage | app/services/historical_backfill.py:241-252 | prices, observations and date checkpoint reach one commit together, or nothing is committed |
| Backfill.HistoricalBackfillService.TakePage | app/services/historical_backfill.py:230-252 | one page: its request recorded, its wanted rows saved and confirmed in one commit, or nothing saved if there are none |
| Backfill.HistoricalBackfillService.CollectTarget | app/services/historical_backfill.py:228-255 | the loop over the iterator's pages takes the course the session specifies, page by page |
| Backfill.HistoricalBackfillService.Conclude | app/services/historical_backfill.py:256-270 | the terminal reason decides between collected, failed and left running, as the session function specifies it and `BackfillTargets.FateOf` reads it |
| Backfill.HistoricalBackfillService.Attempt | app/services/historical_backfill.py:217-270 | the `try` block, unresolved and raising targets included |
| Backfill.HistoricalBackfillService.ProcessTarget | app/services/historical_backfill.py:217-279 | on a raise the session rolls back to the last commit and only this target is marked failed, or a run never committed is lost |
| Backfill.HistoricalBackfillService.RunTargets | app/services/historical_backfill.py:204-279 | the loop over targets takes the course the session specifies, raises at the exhaustion and handler commits included |
| Backfill.HistoricalBackfillService.Finish | app/services/historical_backfill.py:280-321 | completed targets are counted and the run is finalized in one commit |
| Backfill.HistoricalBackfillService.Execute | app/services/historical_backfill.py:171-284 | the service commits exactly the states of the specified session, in order, and returns its outcome, report and unspent budget; every state committed is valid and advances the one before |
| Backfill.HistoricalBackfillService.ReconcileConfirmedStart | app/services/historical_backfill.py:286-321 | exactly the running targets whose first expected date is confirmed become completed and are counted, dates untouched, and the run is finalized; an unknown run raises |
| KrxLifecycles.ReadingOrderFree | app/services/krx_listing_csv.py:76-121 | lifecycles do not depend on the order of files or of rows within files |
| KrxLifecycles.LifecyclesDistinct | app/services/krx_listing_csv.py:76-121 | one lifecycle per (code, market, listing date), and one for every usable row |
| KrxLifecycles.BuildLifecycles | app/services/krx_listing_csv.py:76-121 | the dictionary loops compute those lifecycles |
| KrxLifecycles.LifecycleMeaning | app/services/krx_listing_csv.py:103-121 | a lifecycle is delisted on a day exactly when its sightings give that day alone; all days given are kept; the name is the least given, else the code; every sighting leaves a source |
| KrxLifecycles.LifecycleReads | app/services/krx_listing_csv.py:76-121 | a lifecycle in terms of the files' rows: delisting days, name and sources are what its rows give |
| KrxLifecycles.EveryRowHasLifecycle | app/services/krx_listing_csv.py:76-121 | every row of an ordinary share that names its code, market and listing day has its lifecycle |
| KrxLifecycles.DescribeGroups | app/services/krx_listing_csv.py:103-121 | one lifecycle per dictionary item, in key order |
| KrxPlanner.PlanPartitions | app/services/krx_listing_csv.py:151-213 | every lifecycle ends in exactly one of exact match, update, create or unresolved |
| KrxPlanner.UpdateMembers | app/services/krx_listing_csv.py:195-206 | the updates are exactly the lifecycles judged to date an instrument |
| KrxPlanner.CreateMembers | app/services/krx_listing_csv.py:180-193 | the creates are exactly the ended lifecycles judged new |
| KrxPlanner.UnresolvedMembers | app/services/krx_listing_csv.py:153-213 | the unresolved list holds exactly the lifecycles left over, with their reasons |
| KrxVerdicts.VerdictMeans | app/services/krx_listing_csv.py:151-208 | each verdict with its exact condition on the lifecycles and instruments |
| KrxVerdicts.PlanMeans | app/services/krx_listing_csv.py:124-213 | the creates, updates and unresolved rows of a plan, each exactly characterised without the planner |
| KrxVerdicts.PlanOrdered | app/services/krx_listing_csv.py:209-213 | the three lists in their orders |
| KrxPlanner.PlanIdentities | app/services/krx_listing_csv.py:124-213 | the dictionary and list loops compute the specified plan |
| KrxReconciliation.UpdateFacts | app/services/krx_listing_csv.py:195-206 | an updated instrument is undated and of the pair of the one open lifecycle that dates it |
| KrxReconciliation.UpdateUnique | app/services/krx_listing_csv.py:195-206 | no two lifecycles update the same instrument |
| KrxReconciliation.PlanApplies | scripts/reconcile_krx_listing_identities.py:61-69 | a fresh plan never raises on apply: no instrument twice, none already dated, all existing |
| KrxReconciliation.InstrumentTable.Apply | scripts/reconcile_krx_listing_identities.py:61-81 | applied exactly when every update names an undated instrument once; otherwise the table is as before |
| KrxReconciliation.AppliedMeans | scripts/reconcile_krx_listing_identities.py:61-81 | named instruments get their listing day and nothing else, others stay, and each create becomes a delisted instrument under the next id |
| KrxReconciliation.DatedRowsKept | scripts/reconcile_krx_listing_identities.py:61-81 | an instrument that carries a date is never changed |
| KrxReconciliation.ExactAfter | scripts/reconcile_krx_listing_identities.py:61-81 | after applying, every matched, updated or created lifecycle has exactly one instrument; an unresolved one as many as before |
| KrxReconciliation.ReplanVerdict | app/services/krx_listing_csv.py:151-208 | judged again after applying, a resolved lifecycle is an exact match and an unresolved one keeps its reason |
| KrxReconciliation.ReplanIsStable | app/services/krx_listing_csv.py:124-213 | plan, apply, plan again: no updates, no creates, the same unresolved list |
| KrxReconciliation.ReconcileFilesTwice | scripts/reconcile_krx_listing_identities.py:25-81 | the same from listing files, with ids kept unique |
| ProviderMappings.SharedDayOverlaps | app/repositories/instrument_repository.py:157-166 | the overlap test misses no shared day |
| ProviderMappings.OverlapIffSharedDay | app/repositories/instrument_repository.py:157-166 | on valid intervals the test agrees with sharing a day exactly unless both are open-started and one ends on the first calendar day |
| ProviderMappings.EmptyIntervalOverlaps | app/repositories/instrument_repository.py:157-166 | an input of that kind, on which it holds without a shared day |
| ProviderMappings.InstrumentRepository.AddProviderSymbol | app/repositories/instrument_repository.py:56-89 | the checks in order, the first clashing row named, one row added on success |
| ProviderMappings.AddMeans | app/repositories/instrument_repository.py:56-154 | each answer with its exact condition, the first contradicting row named, and the row that is added |
| ProviderMappings.CodesStayExclusive | app/repositories/instrument_repository.py:132-154 | after any sequence of requests no day maps one matched code to two instruments |
| ProviderMappings.OverlapRejectionIff | app/repositories/instrument_repository.py:132-154 | a valid request is turned away for overlap exactly when on some day a matched code of another instrument would collide, or when it clashes with one on no day in the way just described |
| ProviderMappings.StoreIsWellFormed | app/repositories/instrument_repository.py:127-129 | every stored interval is valid |
| PriceTargets.SelectNewest | app/services/universe_target_builder.py:123-127 | the descending first-wins loop keeps the newest row of each instrument |
| PriceTargets.ActiveInstruments | app/services/universe_target_builder.py:155-174 | a code resolves to its one active instrument, never to one of several |
| PriceTargets.BuildPriceTargets | app/services/universe_target_builder.py:64-100 | the loop computes one target per member in member order |
| PriceTargets.EligibleMeans | app/services/universe_target_builder.py:177-188 | an eligible target is a listed active instrument with a mapping in force and no exclusion in force |
| PriceTargetMeaning.TargetMeans | app/services/universe_target_builder.py:64-188 | a target names an instrument exactly if one alone trades under the code that day; provider code and every eligibility follow from the newest rows in force |
| PriceTargets.EligibleSymbolsDistinctAlways | app/services/universe_target_builder.py:35-100 | over any store built by mapping requests, the eligible targets of one build have pairwise different provider symbols |
| PriceSelection.AttributeTargets | app/services/universe_price_selection.py:94-101 | codes and lineage gain exactly the targets matched by code and type |
| PriceSelection.SelectPriceTargets | app/services/universe_price_selection.py:74-116 | a code is selected, and attributed, exactly when some market of the listing selects, and attributes, it |
| PriceSelection.DecisionMeans | app/services/universe_price_selection.py:72-92 | KRX decides a market exactly when six conditions hold, and a fallback names the first that fails |
| PriceSelection.SelectionMeans | app/services/universe_price_selection.py:93-111 | the codes of a market, in terms of its listing and its eligible targets |
| PriceSelection.NothingOverwritten | app/services/universe_price_selection.py:94-101 | each attributed code keeps the one target attributed to it, in whatever market |
| PriceSelection.SelectionWithinListing | app/services/universe_price_selection.py:93-111 | only listed codes are selected, and a market that falls back keeps all of its own |
| RsWindows.WindowIsPrefix | app/services/historical_rs.py:160-182 | row_number and lag of a day depend only on the prices up to that day |
| RsWindows.GatesAgree | app/services/historical_rs.py:47-57 | the pre-check and the SQL form give every membership the same reason, or none |
| RsWindows.WindowsDoNotLookAhead | app/services/historical_rs.py:160-214 | later prices change no window and no reason |
| RsRanking.ScoreIsQuarterlyMean | app/services/historical_rs.py:183-188 | the score is the mean of four quarterly returns whose growth factors multiply to the year's |
| RsRanking.ScoreBoundsYear | app/services/historical_rs.py:183-188 | (1 + score)^4 >= close / c252 |
| RsRanking.RanksAreBijection | app/services/historical_rs.py:189-198 | rows with a value are numbered 1..n, each number once |
| RsRanking.RankFollowsOrder | app/services/historical_rs.py:189-198 | rank follows value descending, then instrument id, nulls last |
| RsRanking.RoundedIsNearest | app/services/historical_rs.py:218-225 | the rounded quotient is the nearest integer |
| RsRanking.RatingScale | app/services/historical_rs.py:218-225 | for two rows or more the clamp never binds, top is 99, bottom is 1, and a worse rank never rates higher |
| RsRanking.LoneRowRatings | app/services/historical_rs.py:218-225 | with one row, period ratings are 1 and the overall rating 99 |
| RsRanking.RatingsAgreeIff | app/services/rs/calculator.py:107-110 | both rating scales agree on a rank exactly when the quotient is not half-way above an even number |
| RsRanking.RatingsDisagreeExample | app/services/rs/calculator.py:107-110 | 197 rows, rank 196: 2 against 1 |
| HistoricalRs.ScoresAgree | app/services/rs/calculator.py:68-104 | window lags and list positions give the same returns and score |
| HistoricalRs.RanksNumberTheDate | app/services/historical_rs.py:189-198 | on every date and for every measure the eligible memberships are numbered 1..n, each number once |
| HistoricalRs.BetterValueBetterRank | app/services/historical_rs.py:189-225 | for every measure, a larger value ranks strictly better and its rank never rates lower |
| RsColumns.RowMeans | app/services/historical_rs.py:159-230 | every column of an available row: returns and score in closes, overall rank and percentile by score, each rating by its own measure |
| RsColumns.ReasonMeans | app/services/historical_rs.py:200-214 | the reason of a row without figures and the observations it could use, in terms of its prices |
| RsColumns.BetterScoreBetterRow | app/services/historical_rs.py:189-225 | the row with the better score, or the same and the smaller instrument id, has the better rank and no worse percentile and rating; 99 at the top, 1 at the bottom |
| HistoricalRs.NoLookAhead | app/services/historical_rs.py:159-230 | prices and memberships after t change no reason, return, score, rank or rating up to t |
| HistoricalRs.Precheck | app/services/historical_rs.py:40-59 | the loops turn away exactly what the statement leaves unscored, with the same reasons |
| RateLimits.RateLimitMiddleware.Dispatch | app/core/rate_limit.py:42-60 | one dispatch prunes, admits or rejects as specified |
| RateLimits.TracksAlways | app/core/rate_limit.py:49-60 | stored hits are the admissions without those a whole window behind, and limit + 1 admissions of a key always span a window |
| RateLimits.WindowHoldsLimit | app/core/rate_limit.py:42-60 | over any run on a monotone clock no half-open 60-second window holds more of a key's admissions than the largest limit among the requests with that key |
| RateLimits.MinuteHolds | app/core/rate_limit.py:11-38 | the same in numbers: 30 in 60 seconds for rankings and stocks paths, 60 for others, the agent's own limit for its paths |
| RateLimits.AdmittedIff | app/core/rate_limit.py:42-60 | a request is admitted exactly when its key has had fewer admissions in the 60 seconds before it than its path allows |
| RateLimits.KeysCanBeShared | app/core/rate_limit.py:43-46 | two clients and paths of different limits with one key |
| CallLimiter.CallsPerSecondLimiter.Wait | app/crawler/rate_limiter.py:31-38 | the caller is let through at the later of now and the next slot, and the next slot moves one interval on |
| CallLimiter.Create | app/crawler/rate_limiter.py:24-29 | a rate that is not positive is refused |
| CallLimiter.SlotsSpread | app/crawler/rate_limiter.py:31-38 | for every order of threads, slots n apart are at least n intervals apart |
| CallLimiter.SlotsAreEarliest | app/crawler/rate_limiter.py:31-38 | no schedule that keeps order, clock and spacing lets anyone through earlier |
| CallLimiter.WindowHoldsCalls | app/crawler/rate_limiter.py:31-38 | a window of length T sees at most floor((T + delay) / interval) + 1 calls that wake at most delay late |
| CallLimiter.ReleasesApartIff | app/crawler/rate_limiter.py:31-38 | for all wake-ups up to a delay late, releases are an interval apart exactly when consecutive slots are at least an interval and the delay apart |
| CallLimiter.LateWakeUpsCollide | app/crawler/rate_limiter.py:37-38 | three callers of which the second sleeps too long and goes out together with the third |

## Left out

- HTTP, OAuth, routes, message text, metrics, audit timestamps and error details: no property depends on them.
- RepairQueue.CrawlRepairRepository.Enqueue: the dedupe key is the tuple it digests, and blank trimming of symbols is not modelled.
- RepairQueue.CrawlRepairRepository.Fail: the service's checks of the error code and HTTP status and its cap of one day on the retry delay are left out; any delay is allowed.
- RepairApplication.Reconciler.ApplyRequest: the status writes on target results are left out (they depend on order and carry no property); batch application in a loop is `OrderDoesNotMatter`.
- Request statuses `legacy_hold`, `expired` and `cancelled`: nothing in the modelled code assigns them.
- PriceTable.PriceRepository.SaveSymbolPrices: values are stored without loss; the bulk variant and benchmark prices are not modelled.
- HistoryCompleteness.CompleteTraversal: the provider serves slices of one descending history with no gap between a page and what came before; other providers are covered by `AnyProvider`.
- Backfill.HistoricalBackfillService.Execute: a negative extension, refused by the source, is outside the natural numbers used; targets are addressed by position, which their (instrument, market) pair determines; a commit either takes effect or raises; retry counts, byte counts and failure evidence are left out.
- Universe.BuildMeaning: counters of excluded reasons and the digest of the manifest are left out; the trading calendar is a parameter.
- ListingLedger.CurrentIsHeads: stated for a view over all instruments; a view over some may show an older row of a record whose newer row names another instrument.
- Snapshot.LatestObservationWins: the canonical mode, which copies the price table as it is, and the digests of the dataset manifest are left out.
- KrxLifecycles.BuildLifecycles: CSV decoding, trimming and date parsing; a row arrives with its cells read.
- `prepare_listing_events`: a per-row filter with easier properties.
- `_materialize_exact_mappings`: it inserts mappings without the overlap check, so exclusivity is claimed for `add_provider_symbol` only.
- PriceTargets.BuildPriceTargets: choosing the completed snapshot is left out; its members are the input.
- PriceSelection.SelectPriceTargets: the per-market count of selected codes, upper-casing of market names and the lookup of the approved reconciliation run.
- RsRanking.ScoreBoundsYear: closes are positive by type; a zero close makes the statement raise. Column rounding to eight decimals is not modelled.
- HistoricalRs.NoLookAhead: about the SQL statement; the portable path's numbers are compared by `ScoresAgree` and `RatingsAgreeIff`, with its 28-digit decimals taken as exact; hashes and the tie rules of the portable calculator's ranking, which shares period ranks between equal returns, are left out.
- RsWindows.GatesAgree: needs one price per instrument and day; the schema gives one per symbol and day, and two symbols of one instrument would give the join two rows.
- RateLimits.WindowHoldsLimit: real-number times, one process, and a fixed agent limit; the remaining-requests header is left out.
- Clean snapshots, dataset coverage audits, canary approvals, in-memory repositories and checkpoints: easier members, or built on code that is not part of this model.
