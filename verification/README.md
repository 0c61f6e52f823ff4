# Verified models of the data and retraining scripts

The repository keeps a Korean equity model supplied with point-in-time data: it archives news,
checks the archive, turns it into per-ticker rows, backfills minute bars, audits feature coverage,
retrains after the close, and moves the `final_dataset_gate` of `risk_config.yaml` forward when the
evidence allows it. This project models that logic in Dafny and proves what it is meant to keep:
no future event reaches a row, no event is lost between windows, the configured dataset end never
moves back, no fold leaks, no PASS is given on partial coverage, no share is sold twice.

One module per script, or per separable part of one:

- `TradingCalendar`, `Events`, `Common`: days, instants, payloads, small vocabulary.
- `NewsSearch`, `NewsArchive`, `InputReadiness`, `Materializer`: the point-in-time event pipeline.
  Each loop is proved equal to a plain filter over the event list, and each filter to hold exactly
  the elements meant, in order.
- `ConfigRewrite`, `ConfigText`: the rewrite of the gate block, on lines and on text.
- `StageRetry`, `PostCloseUpdate`, `Scheduler`: the retry loop, one update with its promotion, and
  runs of scheduler ticks. `RiskConfig` and `LocalScheduler` are classes because the source rewrites
  a file and a state document in place; the functions `NextGate` and `Step` say what one call does,
  and the run theorems are about sequences of them.
- `WalkForward`, `Drawdown`, `ForwardReturns`: fold arithmetic, drawdown, labels.
- `BarInspection`, `Backfill`, `CoverageGate`, `FeatureCoverage`: bar files, the circuit breaker, and
  the counting arguments behind PASS.
- `SellPlan`: order chunking.

Days and timestamps are integers, prices and ratios exact reals, text files sequences of characters.

Some promises hold only under a condition. Each is proved as an equivalence or with a concrete
counterexample:

- Early stopping of the paged search is exact for pages that are really sorted by date. For one query on
  arbitrary pages it is exact if and only if the cap is reached by then or no new link lies in the window
  after the stop. For several queries the same list results if and only if at every query the new items
  skipped so far are, in order, the next ones that later queries find; as many items result if and only if
  the cap is reached or every link after a stop is found by some query. A stale page served before a recent
  one loses news.
- An event without a readable timestamp lands in every window, so one such event makes the archives of
  all dates invalid for the readiness checker. An archive without events is written (with status
  PASS_ZERO_EVENTS) and is never judged valid.
- The config rewrite keeps the number of lines if and only if every replaced line but the last ended in
  a newline. `splitlines` also cuts at other boundaries (form feed, U+2028, ...), which the rewrite drops,
  so the replaced line then runs into the next one. Newline-separated files stay safe over any run.
- The equity curve starts after the first day, so that day's return, short of a total loss, does not
  enter the drawdown at all. Counting the starting capital gives the same number if and only if on some
  day the curve is at least as far below its peak as its lowest point is below the starting capital; a first day
  that does not lose is enough.
- A fold, rolling or expanding, that the builder keeps and writes down with its validation starting inside
  the list (and a window of at least a day) trains on a day it validates on if and only if the embargo is
  negative and training starts before validation ends. The second part holds for every expanding fold and
  whenever the window is at least as long as the overlap. Some negative embargoes raise an IndexError
  instead. For any other parameters a fold shares a day if and only if its two ranges of positions meet.
- With a failed-ticker threshold of zero every fetched day counts as failed: the breaker trips on
  complete data, and the run may still pass. With a positive threshold a tripped breaker always fails.
- With no tickers at all the count-per-date index selects nothing while the direct gate accepts every
  date; in every other case the two agree.
- The scheduler's retry delay applies after BLOCKED and FAIL only. A ready scheduler is due if and only if
  the new attempt may follow the recorded one, so after a dry run any later tick is due.

## Model

| member | source | states |
|---|---|---|
| TradingCalendar.PreviousIsGreatest | new/src/utils/trading_calendar.py:60-65 | the previous trading day is at least as late as every trading day before the given one |
| TradingCalendar.BusinessDatesAreTheLastN | new/src/utils/trading_calendar.py:68-93 | start-date walk and range listing together give exactly n trading days, ascending, none skipped, ending on the newest trading day not after the end |
| TradingCalendar.ConsecutiveAscends | new/src/utils/trading_calendar.py:85-93 | a list in which each day is preceded by its previous trading day ascends strictly, so any two positions are ordered |
| TradingCalendar.OpenDays | new/src/utils/trading_calendar.py:50-52 | a day is open iff it is Monday to Friday, counted from a known Monday, and no holiday |
| TradingCalendar.TradingDatesExactly | new/src/utils/trading_calendar.py:85-93 | the range holds every trading day between its ends and nothing else, ascending |
| Events.WindowEnds | new/scripts/build_news_dart_archive.py:56-66 | the snapshot is the day's own 08:30 and the window opens at 08:30 of the nearest trading day before it |
| Events.StampIsFirst | new/scripts/materialize_dual_source_history.py:387-391 | the timestamp used is the first of the three fields that is not empty |
| NewsSearch.ScanPage | new/scripts/build_news_dart_archive.py:325-348 | scanning one page with the seen set, the cap and the too-old counter extends the result to the first-seen items in the window among the items looked at; without a cap hit, the page is reported too old iff every item is older than the window |
| NewsSearch.SearchPages | new/scripts/build_news_dart_archive.py:309-348 | the page loop returns the capped, first-seen, in-window items of the pages before the first all-too-old one, added to what earlier queries found; capped iff the cap is set and reached |
| NewsSearch.FetchForTicker | new/scripts/build_news_dart_archive.py:192-267 | one event per kept item, of this ticker, with the item's time and text; kept are the first max_items of the de-duplicated in-window items of the pages read by all name queries, and of every page up to the limit when pages are sorted newest first, every stop is exact or skipped items are found next; as many as reading every page would give iff the cap is reached or no link is lost |
| NewsSearch.FetchBroadcast | new/scripts/build_news_dart_archive.py:291-365 | for every kept item and every target ticker, in this order, one event of that ticker with the item's time and text; for arbitrary pages the events are those of all pages iff the stop is exact, or there is no target |
| NewsSearch.EarlyStopIsExact | new/scripts/build_news_dart_archive.py:264-266 | on pages sorted newest first, stopping at the first all-too-old page loses no in-window item |
| NewsSearch.EarlyStopExactIff | new/scripts/build_news_dart_archive.py:341-348 | on arbitrary pages the capped result is complete iff the cap is reached before the stop or every in-window link after it was already found; otherwise it is shorter |
| NewsSearch.ExactStopsLoseNothing | new/scripts/build_news_dart_archive.py:216-267 | over several queries on arbitrary pages, the capped result is complete when each stop skips no new in-window link, or comes after the cap |
| NewsSearch.NoLinkLostIff | new/scripts/build_news_dart_archive.py:216-267 | over several queries on arbitrary pages, as many items are returned as reading every page would give iff the cap is reached or every in-window link after a stop is found by some query |
| NewsSearch.SameListIff | new/scripts/build_news_dart_archive.py:216-267 | over several queries on arbitrary pages, the capped list is that of reading every page iff at every query the new items skipped so far are, in order, the next ones the queries find |
| NewsSearch.UnsortedPagesLoseNews | new/scripts/build_news_dart_archive.py:345-348 | a concrete provider order for which the early stop returns nothing although a later page has an in-window item |
| NewsSearch.WantedReadIsExact | new/scripts/build_news_dart_archive.py:216-267 | over several queries whose pages are sorted, reading with the early stop equals reading every page |
| NewsSearch.CapReachedAfter | new/scripts/build_news_dart_archive.py:262-263 | returning as soon as the cap is reached gives the first max_items of what all queries together would give |
| NewsSearch.AllPagesAre | new/scripts/build_news_dart_archive.py:310-321 | the pages there are: one after another, up to the first empty one or the limit |
| NewsSearch.PagesReadAre | new/scripts/build_news_dart_archive.py:310-348 | the pages read: up to the first one with no item as new as the window, or the limit |
| NewsSearch.InWindowPicks | new/scripts/build_news_dart_archive.py:329-333 | exactly the items whose time is in the closed window, in order, each as often as it occurs |
| NewsSearch.FirstSeenAre | new/scripts/build_news_dart_archive.py:334-338 | de-duplication keeps exactly the items whose link has not occurred before, in order |
| NewsSearch.CappedIsPrefix | new/scripts/build_news_dart_archive.py:341-342 | the cap keeps the first max_items; zero or less keeps all |
| NewsSearch.QueriesInTurn | new/scripts/build_news_dart_archive.py:215-216 | several queries contribute their in-window items one query after the other |
| NewsSearch.FirstSeenKeepsEachLinkOnce | new/scripts/build_news_dart_archive.py:246-250 | de-duplication keeps every link and keeps it once |
| NewsSearch.BroadcastCount | new/scripts/build_news_dart_archive.py:350-365 | a broadcast yields items times tickers events, so dividing by the number of tickers gives back the item count |
| NewsArchive.DistributeIntoDates | new/scripts/build_news_dart_archive.py:368-385 | every date's list is the plain filter of all events by that date's window, in dictionary order |
| NewsArchive.FillWindow | new/scripts/build_news_dart_archive.py:374-384 | one date's nested loop appends exactly the events landing in its window |
| NewsArchive.WindowEventsPick | new/scripts/build_news_dart_archive.py:374-384 | a date's list is exactly the undated events and those inside its closed window, in order, each as often as it was fetched |
| NewsArchive.WindowsTile | new/scripts/build_news_dart_archive.py:56-72 | over consecutive trading days a dated event lands in no window outside the overall one, in two if it falls on an interior 08:30 boundary, else in one; an undated event lands in all |
| NewsArchive.CountBothWays | new/scripts/build_news_dart_archive.py:368-385 | archive sizes summed over dates equal landings summed over events |
| NewsArchive.ArchiveConservesEvents | new/scripts/build_news_dart_archive.py:368-385 | total archived events are the in-window ones plus the interior-boundary ones plus dates times undated ones |
| NewsArchive.CountsAreNumbers | new/scripts/build_news_dart_archive.py:368-385 | the three counts of that equation are numbers of positions in the event list |
| NewsArchive.TotalsAreNumbers | new/scripts/build_news_dart_archive.py:368-385 | the total is the length of all dates' lists together; the landings of an event are the dates it is listed on |
| NewsArchive.PayloadHolds | new/scripts/build_news_dart_archive.py:591-604 | the file declares its size and exact window and holds the date's events in order |
| NewsArchive.NoFutureEvents | new/scripts/build_news_dart_archive.py:379-383 | a dated event in a date's archive is inside that date's closed window, never after its snapshot |
| InputReadiness.RawPayloadReadiness | new/scripts/phase2_input_readiness.py:51-163 | valid iff the provenance and the exact window match and every event is dated inside it; the reported reason is true of the file and is the first such reason in the order of the checks, and among events that of the first offending one |
| InputReadiness.ReadyIffNothingExplains | new/scripts/phase2_input_readiness.py:51-163 | a file is valid iff none of the listed defects is present |
| InputReadiness.CheckerAcceptsArchiveIff | new/scripts/build_news_dart_archive.py:591-604 | the archive written for a date is judged valid iff it is non-empty and every fetched event, wherever it belongs, has a timestamp |
| InputReadiness.CheckedPayloadMaterializes | new/scripts/materialize_dual_source_history.py:378-393 | no event of a payload the checker accepts makes the materializer raise |
| InputReadiness.RefusedThoughCleanIff | new/scripts/phase2_input_readiness.py:132-162 | of the payloads with the right header that build, the checker refuses exactly those holding a non-object, an event before the window, or an event without ticker or text that is undated or in the future |
| InputReadiness.CheckerIsStricter | new/scripts/phase2_input_readiness.py:157-162 | a concrete event before the window that passes the materializer and not the checker |
| InputReadiness.ArchiveToRows | new/scripts/materialize_dual_source_history.py:358-514 | writer to rows: a non-empty archive of dated events is always built, and its rows are those the filters prescribe over the archived events, one per universe ticker, none dated after its snapshot |
| Materializer.TallyEvents | new/scripts/materialize_dual_source_history.py:378-422 | after the first loop every dictionary, running maximum and counter equals a filter over the events; the loop raises iff some accepted event is undated, unreadable or in the future, and then on the first one |
| Materializer.OneEventIsRead | new/scripts/materialize_dual_source_history.py:379-398 | which entries are skipped, which used ones raise and why, and which are community texts, in terms of the fields |
| Materializer.ScopesAre | new/scripts/materialize_dual_source_history.py:388-422 | the ticker, sector and market scopes in terms of the sector map |
| Materializer.TextsPick | new/scripts/materialize_dual_source_history.py:394-415 | the texts of a scope and channel are exactly those of its events, in event order |
| Materializer.LatestIsNewest | new/scripts/materialize_dual_source_history.py:416-421 | the newest timestamp of a scope is attained by one of its events and bounds all; none iff it has no dated event |
| Materializer.AddEvent | new/scripts/materialize_dual_source_history.py:394-422 | one accepted event keeps all six dictionaries, the market lists and the counters equal to their filters |
| Materializer.PickScope | new/scripts/materialize_dual_source_history.py:439-475 | the fallback chain over the dictionaries picks the ticker, sector or market scope the filters prescribe, with its texts and timestamp candidate |
| Materializer.BuildRow | new/scripts/materialize_dual_source_history.py:433-501 | one universe ticker gets the row the filters prescribe: capped texts, scopes, volume, data timestamp, backstop |
| Materializer.BuildRows | new/scripts/materialize_dual_source_history.py:424-501 | rows in universe order are those the filters prescribe; scope counts, and original, kept and dropped text counts per scope, are the sums over the rows |
| Materializer.PayloadRowsFromEvents | new/scripts/materialize_dual_source_history.py:358-514 | the whole function: rows as prescribed and event_count = news + community iff no event raises, else the first offending event |
| Materializer.NoScopeIffNoText | new/scripts/materialize_dual_source_history.py:439-448 | a row's scope is none iff the whole payload has no text of that channel |
| Materializer.MostSpecificScope | new/scripts/materialize_dual_source_history.py:439-475 | a used scope contains the ticker and has texts, and every more specific scope is empty |
| Materializer.RowTextsAre | new/scripts/materialize_dual_source_history.py:439-500 | per channel: the scope used, and that the first texts of it are kept up to the limit of that scope, all when the limit is zero; the backstop likewise; the volume is the number of own community texts |
| Materializer.RowTimestampIsNewest | new/scripts/materialize_dual_source_history.py:437-494 | the data timestamp is attained by an event of the ticker or of a fallback scope in use and bounds all of them; it is the snapshot when there is none |
| Materializer.MarketTimestampIsNewest | new/scripts/materialize_dual_source_history.py:497-499 | the backstop timestamp is that of the newest accepted event, the snapshot when there is none |
| Materializer.OfferedIs | new/scripts/materialize_dual_source_history.py:164-201 | the text count before the cap is the size of the most specific non-empty scope |
| Materializer.RowCoversItsTexts | new/scripts/materialize_dual_source_history.py:437-494 | the data timestamp of a row is at least that of every event whose text its scopes offer |
| Materializer.RowNotAfterSnapshot | new/scripts/materialize_dual_source_history.py:392-393 | neither timestamp of a row exceeds the snapshot |
| Materializer.ScopesPartitionRows | new/scripts/materialize_dual_source_history.py:485-486 | every row and every placed text belongs to exactly one of the four scopes |
| Materializer.ReportAddsUp | new/scripts/materialize_dual_source_history.py:164-213 | per channel the reported scope counts sum to the universe size, and the kept texts to the texts placed in rows |
| ConfigRewrite.RewriteLines | new/scripts/post_close_data_update.py:469-502 | the loop with its inside flag replaces exactly the two keys inside the block, keeps number and content of all other lines, and reports each key found iff it occurs inside |
| ConfigRewrite.RewriteAbsorbs | new/scripts/post_close_data_update.py:469-502 | rewriting twice equals the second rewrite alone, with the same found flags |
| ConfigRewrite.RewriteIsIdempotent | new/scripts/post_close_data_update.py:469-502 | rewriting with the same values again changes nothing |
| ConfigRewrite.FieldsReadBack | new/scripts/post_close_data_update.py:491-500 | after a rewrite, reading an end-date line gives the target between the quotes, reading a days line gives the number, each after the indented key and with nothing behind but the line end the old line had |
| ConfigRewrite.NumberOfDecimal | new/scripts/post_close_data_update.py:498 | the digits written have the value of the number |
| ConfigRewrite.InsideIff | new/scripts/post_close_data_update.py:482-489 | a line is inside iff some opening line precedes it, or is it, with no closing line since |
| ConfigRewrite.ClosesIff | new/scripts/post_close_data_update.py:487 | a line closes the block iff its first non-blank character is among the first five and is no comment sign |
| ConfigRewrite.KeyLinesIff | new/scripts/post_close_data_update.py:484-496 | the block key opens at exactly four blanks; a field line carries its key behind any number of blanks |
| ConfigRewrite.StateUnchanged | new/scripts/post_close_data_update.py:482-489 | the rewrite does not change which lines are inside the block |
| ConfigText.JoinOfSplit | new/scripts/post_close_data_update.py:476 | splitting with line ends kept and joining gives the text back |
| ConfigText.SplitIntoLines | new/scripts/post_close_data_update.py:476 | the pieces have no boundary before their last character, and all but the last end in one |
| ConfigText.Resplit | new/scripts/post_close_data_update.py:502 | joining such pieces and splitting again gives the same pieces |
| ConfigText.ResplitCount | new/scripts/post_close_data_update.py:502 | in general an unended piece runs into the next one: splitting the joined text gives one line per ended piece, plus the last |
| ConfigText.LineCountKept | new/scripts/post_close_data_update.py:476-502 | the text rewrite keeps the number of lines iff every replaced line but the last ended in a newline, and never adds one |
| ConfigText.LinesOfRewrite | new/scripts/post_close_data_update.py:476-502 | under that condition the lines of the rewritten text are the rewritten lines |
| ConfigText.TextRewriteAbsorbs | new/scripts/post_close_data_update.py:469-502 | under that condition a later rewrite of the file replaces an earlier one completely |
| ConfigText.NewlineTextQualifies | new/scripts/post_close_data_update.py:476 | text whose only boundary is the newline meets the condition |
| ConfigText.LoadedRereads | new/scripts/post_close_data_update.py:476 | newline-separated text loads as lines that come back when joined and split and meet the condition |
| ConfigText.RewriteRereads | new/scripts/post_close_data_update.py:476-502 | such lines stay such lines after a rewrite |
| ConfigText.FormFeedMergesLines | new/scripts/post_close_data_update.py:476-502 | a concrete block whose end-date line ends in a form feed has fewer lines after the rewrite |
| StageRetry.RunStage | new/scripts/post_close_data_update.py:869-907 | at most max_attempts entries; all but the last failed, were retryable with the window open, and were followed by the prescribed sleep; total sleep is at most (max_attempts - 1) times the maximum |
| StageRetry.RetryAfter | new/scripts/post_close_data_update.py:449-455 | a missing value is the back-off, a value inside the bounds is kept, one outside is moved to the bound; never above the maximum |
| StageRetry.RetryableIff | new/scripts/post_close_data_update.py:437-446 | a result is retried iff marked so, or its class is transient, or it lists classes and all are |
| StageRetry.StagePassesIff | new/scripts/post_close_data_update.py:872-907 | a stage passes iff some attempt passes whose predecessors all failed retryably with the window open before and after |
| StageRetry.FinalEntryIs | new/scripts/post_close_data_update.py:872-907 | a stage ends with the first attempt that is not followed by another: its result, or the window having closed before it |
| StageRetry.TotalSleepIsSum | new/scripts/post_close_data_update.py:900-907 | total sleep adds up |
| StageRetry.TotalSleepBounded | new/scripts/post_close_data_update.py:900-907 | sleeps of a stage sum to at most their number times the maximum |
| StageRetry.RunPlan | new/scripts/post_close_data_update.py:867-919 | recorded results are those of a prefix of the enabled stages, the whole list unless failures stop it, all passing but the last; blockers are the names of the failed ones, and there is none iff every enabled stage of the plan passes |
| StageRetry.EnabledStagesPick | new/scripts/post_close_data_update.py:797 | the stages run are exactly the enabled ones, in plan order |
| StageRetry.AllEnabledPass | new/scripts/post_close_data_update.py:913-919 | all of them pass iff every enabled stage of the plan does |
| StageRetry.RunCountIs | new/scripts/post_close_data_update.py:913-917 | stages are left out only after a failure that stops the plan, which is the last one run |
| PostCloseUpdate.PitSafeDayIsGreatest | new/scripts/post_close_data_update.py:135-141 | the target is at least every trading day whose snapshot time has come |
| PostCloseUpdate.PitSafeDayIsMonotone | new/scripts/post_close_data_update.py:135-141 | the target never moves back as the clock advances |
| PostCloseUpdate.BusinessDaysAre | new/scripts/post_close_data_update.py:179-194 | the length is the request, at least one, or the number of trading days since the anchor if that is larger |
| PostCloseUpdate.AnchorIsKept | new/scripts/post_close_data_update.py:179-194 | once the window has outgrown the request, the resolved number of business days makes the range start at the anchor and hold all trading days since |
| PostCloseUpdate.EvidencePassesIff | new/scripts/post_close_data_update.py:657-769 | no blocker iff the report names this end date as written, this window length and bundle, all required stages passed, and model and backtest dates, normalised, agree with the target and one replay range |
| PostCloseUpdate.DigitsPick | new/scripts/post_close_data_update.py:627-629 | normalising keeps exactly the digits, in order |
| PostCloseUpdate.NormalizedIs | new/scripts/post_close_data_update.py:627-629 | a date normalises iff it has eight digits, and to the first eight |
| PostCloseUpdate.RiskConfig.Promote | new/scripts/post_close_data_update.py:505-602 | the file changes iff every promotion condition holds, both fields are found and the write succeeds, and then exactly to the promoted gate; blocked iff promotion applies and fails |
| PostCloseUpdate.RiskConfig.RunUpdate | new/scripts/post_close_data_update.py:772-932 | new gate and status of one update, in terms of the old gate, the stages and the evidence |
| PostCloseUpdate.HasPreliveStage | new/scripts/post_close_data_update.py:537-538 | after an all-pass plan the pre-live stage has a PASS entry iff it was enabled |
| PostCloseUpdate.UpdateMovesForward | new/scripts/post_close_data_update.py:831-932 | one update leaves the gate alone or moves its end strictly forward to the target, only with every enabled stage of the plan passed and the required evidence holding; other lines of the file are untouched |
| PostCloseUpdate.UpdateMovesIff | new/scripts/post_close_data_update.py:505-932 | the gate moves iff all conditions of update and promotion hold, each named, and then to the target, the window and the rewritten lines |
| PostCloseUpdate.StatusMeans | new/scripts/post_close_data_update.py:822-932 | what SKIP, DRY_RUN, PASS and BLOCKED each say about gate, stages and promotion; a moved gate is always a PASS |
| PostCloseUpdate.EndDateNeverMovesBack | new/scripts/post_close_data_update.py:505-602 | between any two points of any run of updates the end date does not decrease, and if it changed it is the target of some promoting update in between |
| PostCloseUpdate.FileFollowsGate | new/scripts/post_close_data_update.py:551-581 | over any run, with dates spelled without quotes and line boundaries, from the first promotion on every field line of the block reads as the gate's end date and window; a file whose lines come back when read keeps that property |
| Scheduler.LocalScheduler.RunOnce | new/scripts/post_close_data_update_scheduler.py:193-280 | new state document and gate after one unforced tick, including an exception before or after the update took effect; it runs iff the tick is due |
| Scheduler.TickLeaves | new/scripts/post_close_data_update_scheduler.py:193-280 | a tick that is not due changes nothing; a due one records target, status and end time, FAIL when an exception struck, and the gate of the update unless the exception came first |
| Scheduler.DecisionIs | new/scripts/post_close_data_update_scheduler.py:168-190 | what each decision says about configuration, clock, calendar, dataset and state |
| Scheduler.DueIff | new/scripts/post_close_data_update_scheduler.py:168-190 | for any state document: due iff enabled, past a valid run time, on a trading day, with the dataset behind the target, and neither a PASS nor a fresh BLOCKED or FAIL of this target recorded |
| Scheduler.UnrecordedIsDue | new/scripts/post_close_data_update_scheduler.py:181-189 | without a complete record of an attempt on this target nothing holds a ready scheduler back |
| Scheduler.FirstReadyTickIsAttempted | new/scripts/post_close_data_update_scheduler.py:193-280 | from an empty state the first tick that finds the scheduler ready is attempted, and none before it |
| Scheduler.DueIffMayFollow | new/scripts/post_close_data_update_scheduler.py:126-190 | a tick is due iff the scheduler is enabled, past its run time on a trading day with the dataset behind the target, and the attempt may follow the recorded one: no step back in target, no repeat after a PASS, the delay waited out after BLOCKED or FAIL |
| Scheduler.RunIsSound | new/scripts/post_close_data_update_scheduler.py:193-280 | over every run of ticks the state document records exactly the last attempt, and each attempt may follow the one before |
| Scheduler.LaterAttempts | new/scripts/post_close_data_update_scheduler.py:126-190 | the same for any two attempts, not only neighbours |
| Scheduler.EveryRunIsOrderly | new/scripts/post_close_data_update_scheduler.py:126-280 | over every run from an empty state with a clock that never runs back: targets never go back, a passed target is never attempted again, retries wait |
| Scheduler.FinalEndNeverAhead | new/scripts/post_close_data_update_scheduler.py:193-280 | over every run whose initial dataset end is not ahead of the point-in-time-safe day at its start, the dataset end never passes the newest such day |
| Scheduler.RunKeepsGate | new/scripts/post_close_data_update_scheduler.py:193-280 | between any point of a run of ticks and its end the dataset end never moves back, the file spells the gate from the first promotion on, and lines that come back when read still do |
| Scheduler.DryRunIsDueAgain | new/scripts/post_close_data_update_scheduler.py:181-189 | a dry run records DRY_RUN and leaves the gate alone, and any later tick is due iff the scheduler is ready |
| WalkForward.BuildFolds | new/scripts/rolling_window_ic_experiment.py:164-193 | for any parameters the kept folds in order with Python's subscripts, or the IndexError one of them raises |
| WalkForward.BuildExpandingFolds | new/scripts/rolling_window_ic_experiment.py:196-228 | the same, each fold training from the first date |
| WalkForward.BuiltFoldsAreCounted | new/scripts/rolling_window_ic_experiment.py:164-228 | with a window of at least a day and no negative embargo nothing raises, and there are exactly min(n, ceil(r / v)) folds, or none when too few days remain, each the intended slice of the dates |
| WalkForward.FoldUsable | new/scripts/rolling_window_ic_experiment.py:178-183 | a fold survives the emptiness test iff its number is below that count |
| WalkForward.ValidationIs | new/scripts/rolling_window_ic_experiment.py:175 | the validation length is at least the minimum, and otherwise the floor of an equal share of the remaining days |
| WalkForward.FoldsUpToAre | new/scripts/rolling_window_ic_experiment.py:177-193 | for any parameters the call raises iff some kept fold does, and otherwise returns one window per kept fold, in order |
| WalkForward.ValidationContiguous | new/scripts/rolling_window_ic_experiment.py:172-179 | validation spans follow one another without gap or overlap, from window + embargo on |
| WalkForward.ValidationCoverage | new/scripts/rolling_window_ic_experiment.py:172-179 | they cover all remaining days when the minimum length decides, else leave r mod n days, always fewer than n |
| WalkForward.RollingFoldDoesNotLeak | new/scripts/rolling_window_ic_experiment.py:231-234 | the date filter keeps exactly `window` training positions, and validation positions starting exactly `embargo` later |
| WalkForward.SharesDayIff | new/scripts/rolling_window_ic_experiment.py:231-234 | for any parameters and both modes, the date filter keeps a date of a written fold for training and validation iff the ranges of list positions its subscripts mean intersect |
| WalkForward.LeaksIff | new/scripts/rolling_window_ic_experiment.py:178-193 | for both modes, a kept and written fold with a window of at least a day and validation starting inside the list shares a date iff the embargo is negative and training starts before validation ends; the latter always holds for expanding folds and for window + embargo >= 0 |
| WalkForward.NegativeEmbargoNeedNotLeak | new/scripts/rolling_window_ic_experiment.py:171-193 | two concrete negative embargoes: one for which the builder raises, one whose kept fold shares no date |
| WalkForward.ExpandingContainsRolling | new/scripts/rolling_window_ic_experiment.py:196-234 | same validation dates, and training on every rolling training date and all earlier ones |
| WalkForward.ValidationDisjoint | new/scripts/rolling_window_ic_experiment.py:231-234 | no panel date is validated by two folds |
| Drawdown.EquityCompounds | new/scripts/rolling_window_ic_experiment.py:294 | the curve starts at one plus the first return and is multiplied by one plus each further one |
| Drawdown.DayDrawdown | new/scripts/rolling_window_ic_experiment.py:294-296 | one day's drawdown from the running peak is the worst change ending on that day, and is attained |
| Drawdown.CurveWorstChange | new/scripts/rolling_window_ic_experiment.py:294-297 | over any curve that starts with capital and never owes any, the one-pass minimum is the worst pairwise change, and is attained |
| Drawdown.DrawdownIsWorstChange | new/scripts/rolling_window_ic_experiment.py:291-297 | for daily returns of at least -1 and no total loss on the first day the result is the minimum of equity[j] / equity[i] - 1 over all i <= j with equity[i] > 0, and is attained |
| Drawdown.DrawdownRange | new/scripts/rolling_window_ic_experiment.py:291-297 | it lies in [-1, 0], is -1 iff some return is -1, and is 0 iff equity starts above zero and never falls, or there are no days |
| Drawdown.FirstReturnIsIgnored | new/scripts/rolling_window_ic_experiment.py:294-297 | replacing the first return by any other above -1 leaves the result unchanged, at every length |
| Drawdown.StartMattersIff | new/scripts/rolling_window_ic_experiment.py:291-297 | with the starting capital counted as a day, the worst change is the same iff some later fall is as deep as the deepest fall below it; so it is whenever the first day does not lose |
| ForwardReturns.HorizonReturnSeries | new/scripts/cost_aware_label_horizon_scan.py:260-307 | every row ends with the label of its own group and rank, or none; no later group overwrites it |
| ForwardReturns.FillGroup | new/scripts/cost_aware_label_horizon_scan.py:275-305 | one group's pass writes its own rows' labels in place and no other row |
| ForwardReturns.LabelLooksAhead | new/scripts/cost_aware_label_horizon_scan.py:272-301 | a label reads the same ticker and session, exactly `bars` later, or in session_close mode the last bar of the group, at least the dropped count later |
| ForwardReturns.LabelValue | new/scripts/cost_aware_label_horizon_scan.py:277-301 | the row's close times one plus its label is the close of the row it looks ahead to, and the close exceeds 1e-8 |
| ForwardReturns.DropCountIs | new/scripts/cost_aware_label_horizon_scan.py:273-292 | the bars dropped at the end of a group: the horizon, or the active horizon (5 by default, at least 1), or more if so configured |
| ForwardReturns.RankIs | new/scripts/cost_aware_label_horizon_scan.py:271 | a row's rank is the number of earlier rows of its group; positions are all rows of the group |
| ForwardReturns.LabelledIff | new/scripts/cost_aware_label_horizon_scan.py:272-305 | a row is labelled iff at least the dropped number of rows of its group follow it and its close exceeds 1e-8 |
| ForwardReturns.PositionHasRank | new/scripts/cost_aware_label_horizon_scan.py:271 | the k-th position of a group is the row preceded by k rows of the group |
| BarInspection.ClassifyGaps | new/scripts/live_data_readiness.py:698-724 | the pair loop returns all gaps, the unexpected ones in order, and the counts of closing-auction and halt gaps |
| BarInspection.ClosingGapMeans | new/scripts/live_data_readiness.py:707-713 | a closing-auction gap leads from the five minutes before 15:20 to 15:30 of the same day, within the configured length |
| BarInspection.HaltGapMeans | new/scripts/live_data_readiness.py:803-819 | within a date: at least a minute is missing and everything missing lies in one known halt |
| BarInspection.ClassIs | new/scripts/live_data_readiness.py:719-724 | a closing-auction gap comes first, then a halt, then length decides |
| BarInspection.ClassesAre | new/scripts/live_data_readiness.py:698-724 | the counts are numbers of adjacent pairs of a class; the unexpected gaps are those of that class, in order |
| BarInspection.SumClassGrows | new/scripts/live_data_readiness.py:698-724 | the time a class accounts for grows by the gaps of that class |
| BarInspection.PresentPicks | new/scripts/live_data_readiness.py:643-645 | the timestamps inspected are those of the rows that have one |
| BarInspection.InspectTimestamps | new/scripts/live_data_readiness.py:643-747 | date, span and gap verdicts and the two counts, over the sorted timestamps that are present |
| BarInspection.SortTimesSorts | new/scripts/live_data_readiness.py:672 | the sorted timestamps are an ascending permutation of the present ones |
| BarInspection.UnexpectedMaxBounds | new/scripts/live_data_readiness.py:726-747 | the maximum unexpected gap is within the threshold iff the threshold is not negative and every unexpected gap is |
| BarInspection.GapsPartition | new/scripts/live_data_readiness.py:698-724 | every gap is in exactly one of four classes, and the classes' gaps sum to the session span |
| BarInspection.AtMostOneClosingGap | new/scripts/live_data_readiness.py:707-713 | sorted timestamps of one date have at most one closing-auction gap |
| BarInspection.OrdinaryGapsBounded | new/scripts/live_data_readiness.py:719-747 | time not excused by an allowed gap is at most one maximum gap per ordinary pair |
| BarInspection.PassingRowsAreDense | new/scripts/live_data_readiness.py:663-747 | a file passing the span and gap checks has enough rows: ordinary pairs times the larger of one minute and the maximum gap, plus excused gaps, reach the minimum span |
| Backfill.FetchDays | new/scripts/live_data_readiness.py:1103-1171 | handled days are a prefix of the business dates, cut only by the breaker; counts and totals are those of the prefix; skipped days are exactly the complete ones; the breaker trips at the first day the streak reaches the limit |
| Backfill.SkipsIff | new/scripts/live_data_readiness.py:1113-1133 | a date is skipped iff that is asked for and every ticker's saved file is clean and long enough |
| Backfill.OneDayAdds | new/scripts/live_data_readiness.py:1136-1146 | each date adds the saved rows when skipped and the fetched ones otherwise |
| Backfill.ShortCountIs | new/scripts/live_data_readiness.py:1147-1151 | the short count is the number of tickers below the minimum |
| Backfill.FailedDayIff | new/scripts/live_data_readiness.py:1152-1157 | a fetched date fails iff the short tickers reach the threshold share, or, when not all are required, iff none brought a row |
| Backfill.StreakIs | new/scripts/live_data_readiness.py:1157-1158 | the counter is the number of fetched dates after the last good one, all failed; skipped dates in between count for nothing |
| Backfill.Judge | new/scripts/live_data_readiness.py:1172-1217 | PASS iff, when all tickers are required, every file is valid on every date and no recorded count is short; both reported lists are exact; retryable iff failed short with the breaker tripped |
| Backfill.RunBackfill | new/scripts/live_data_readiness.py:1084-1217 | with all tickers required a tripped run passes iff the threshold is zero and nothing is short or incomplete; untripped totals are sums over all dates |
| Backfill.SkippedNeverShort | new/scripts/live_data_readiness.py:1133-1138 | a date skipped as complete is never reported short |
| Backfill.FailedDayHasShort | new/scripts/live_data_readiness.py:1147-1157 | with a positive threshold a failed day has a short ticker |
| Backfill.ZeroThresholdFailsEveryDay | new/scripts/live_data_readiness.py:1147-1157 | with threshold zero every fetched day counts as failed |
| Backfill.TrippedButPassing | new/scripts/live_data_readiness.py:1147-1188 | with threshold zero one complete day trips the breaker and the run passes |
| CoverageGate.GroupByDate | new/scripts/phase2_feature_backfill.py:133-141 | files of a directory grouped by date, in directory order, with an entry iff the date has a file |
| CoverageGate.SeenDates | new/scripts/phase2_feature_backfill.py:142-153 | a ticker's dates are those with exactly one file, which is valid |
| CoverageGate.FilesOnPick | new/scripts/phase2_feature_backfill.py:134-141 | the files of a date are exactly those carrying it, in directory order |
| CoverageGate.SoleValidIff | new/scripts/phase2_feature_backfill.py:144-153 | a ticker has the date iff one and only one of its files carries it and that one is valid |
| CoverageGate.TickersWithIs | new/scripts/phase2_feature_backfill.py:154-155 | the count of a date is the number of tickers that have it |
| CoverageGate.CountIsFullIff | new/scripts/phase2_feature_backfill.py:154-157 | the count of a date reaches the number of tickers iff every ticker has one and only one valid file |
| CoverageGate.CommonDates | new/scripts/phase2_feature_backfill.py:123-157 | the reported dates ascend and are exactly those on which every ticker has one and only one valid file; none without tickers |
| CoverageGate.SelectDates | new/scripts/phase2_feature_backfill.py:160-170 | with tickers, the selected dates are those the direct gate accepts, in expected order; without, none |
| CoverageGate.SelectPicks | new/scripts/phase2_feature_backfill.py:170 | the selection is exactly the expected dates that are common, in order |
| CoverageGate.DirectDatesPick | new/scripts/prelive_gate.py:590-614 | the valid dates are exactly the expected ones complete for every ticker, in order |
| CoverageGate.DirectValidDates | new/scripts/prelive_gate.py:580-614 | the nested loop's valid dates are the expected ones on which every ticker has one and only one valid file |
| CoverageGate.CountBad | new/scripts/prelive_gate.py:592-608 | the inner loop counts the tickers without one and only one valid file, none iff every ticker has one |
| CoverageGate.IndexAgreesWithDirectIff | new/scripts/phase2_feature_backfill.py:160-170 | index and nested loop select the same dates iff there is a ticker or nothing is expected |
| FeatureCoverage.CountCoverage | new/scripts/phase2_feature_backfill.py:394-463 | the running counters are sums over dates of the set sizes, and the reasons collected are exactly those of disqualified artifacts |
| FeatureCoverage.AuditCoverage | new/scripts/phase2_feature_backfill.py:487-533 | each blocker is reported iff what it names is so: a disqualified artifact, a missing date, a family not fully covered, too little signal |
| FeatureCoverage.MissingPicks | new/scripts/phase2_feature_backfill.py:365-367 | the missing dates are exactly the expected ones not selected, in order |
| FeatureCoverage.FamiliesAre | new/scripts/phase2_feature_backfill.py:394-447 | what is counted for a date: the artifact as found, its signal dropped when disqualified, or the placeholder written |
| FeatureCoverage.SumCountsPairs | new/scripts/phase2_feature_backfill.py:412-447 | a counter summed over dates is the number of (date, expected ticker) pairs |
| FeatureCoverage.SignalThresholds | new/scripts/phase2_feature_backfill.py:479-500 | a signal threshold is met iff enough such pairs carry a signal, as a share of all pairs |
| FeatureCoverage.RunFeatureBackfill | new/scripts/phase2_feature_backfill.py:355-533 | index, selection and audit together: no blocker iff there are tickers and dates, every expected date has one and only one valid bar file for every ticker, both families hold every ticker on every date, nothing is disqualified, and the thresholds are met |
| FeatureCoverage.FullSumIff | new/scripts/phase2_feature_backfill.py:490-494 | a sum of bounded per-date counts reaches its maximum iff every count does |
| FeatureCoverage.FullCoverageIff | new/scripts/phase2_feature_backfill.py:377-379 | coverage reaches 1 iff there are dates and tickers and every expected ticker is present on every date |
| FeatureCoverage.PassIff | new/scripts/phase2_feature_backfill.py:364-533 | nothing is raised iff every expected date is selected, both families are complete on the selected dates, nothing is disqualified, and the signal thresholds are met |
| FeatureCoverage.PlaceholderNeverPasses | new/scripts/phase2_feature_backfill.py:405-418 | a run that had to write a neutral dual-source placeholder for a date never passes |
| SellPlan.PositionQty | new/scripts/paper_liquidate_positions.py:40-45 | the first positive quantity field, zero iff there is none |
| SellPlan.PositionPrice | new/scripts/paper_liquidate_positions.py:48-53 | the first positive price field, zero iff there is none |
| SellPlan.SellableIff | new/scripts/paper_liquidate_positions.py:62-68 | sold are positions with six ticker digits, not all zero, and some positive quantity and some positive price |
| SellPlan.SellPosition | new/scripts/paper_liquidate_positions.py:59-81 | a sellable position is sold exactly, in orders numbered from 1, all of the chunk size but the last; any other gets no order |
| SellPlan.Plan | new/scripts/paper_liquidate_positions.py:56-82 | the plan is the positions' orders in turn, with a chunk size of at least one |
| SellPlan.ChunkCount | new/scripts/paper_liquidate_positions.py:69-81 | the number of orders is the quantity over the chunk size, rounded up |
| SellPlan.PlanConservesQuantity | new/scripts/paper_liquidate_positions.py:56-82 | planned quantities add up to the sellable holdings |
| SellPlan.QtySumConcat | new/scripts/paper_liquidate_positions.py:56-82 | planned quantities of a list of orders simply add up |

## Left out

- NewsSearch.SearchPages: a failed page request is an empty page; page size, request parameters, de-duplication of query names and the DART disclosure pages are not part of this model.
- NewsArchive.DistributeIntoDates: the dictionary of fetched events is a list of lists, in dictionary order.
- Materializer.PayloadRowsFromEvents: payloads with explicit rows, ticker padding, lower-casing, the joining of title and body, and the always-empty second-day texts and historical volumes.
- Materializer: scoring of the rows and the market-backstop score.
- ConfigRewrite.RewriteLines: carriage returns (the file is read with newline translation).
- PostCloseUpdate.RiskConfig.RunUpdate: subprocess calls, time-outs, sleeping and report files; stage results, window checks, evidence and write success are inputs. The gate read by the next update is taken to be what was written, so YAML parsing and a config edited by hand between updates are not covered.
- PostCloseUpdate.EvidencePassesIff: reading of the report file; an absent or empty sub-result is None, an absent text empty.
- Scheduler.LocalScheduler.RunOnce: forced runs and the SQLite job store.
- Drawdown.DrawdownIsWorstChange: returns below -1, which a mean of close-to-close returns cannot be; floating-point rounding (returns are exact reals, as are prices and ratios everywhere).
- CoverageGate.GroupByDate: the file-name rules of the two gates (a pattern and a prefix) are taken to agree on the date of a file.
- FeatureCoverage.AuditCoverage: blockers are named values, not the report's texts and their order; the per-date report with its secondary ratios.
- ForwardReturns.HorizonReturnSeries: a missing close (NaN) in the panel; closes are real numbers.
- BarInspection.InspectTimestamps: price and volume checks, ticker mismatches, duplicates, out-of-hours counts and the reported overall maximum gap; halt intervals are those of the date that parse. `sorted` is an insertion sort.
- Backfill.FetchDays: exceptions during fetching, and ticker padding; a fetched day's record may hold tickers that were not asked for, which are never read.
- CoverageGate.DirectValidDates: samples of missing files, and the comparison of the number of valid dates with the requested one.
- TradingCalendar: holiday tables per year are one finite set; parsing of dates and time zones.
- SellPlan.Plan: reading of numeric fields, ticker padding, broker submission.
- Model training, information-coefficient metrics, network clients, command lines and report printers.
