# A verified model of tradeflow's algorithmic core

This project models, in Dafny, the parts of tradeflow whose correctness rests on an
argument rather than on a single body, and proves what they are for. Each
module takes one algorithm, states what its callers rely on, and proves it for every input,
every stream or every run.

| Modules | What they model |
|---|---|
| `OrderLoop`, `OrderLoopSafety`, `OrderLoopTheorems`, `LiveOrderEngine` | The live order loop: bar signals, fill refreshes and whole-book sweeps as handlers that wait for one order lock, read the broker and write the strategy's position book. A labelled transition system with arbitrary interleaving; the broker fills, cancels and accepts orders from elsewhere at any moment, a failed read may raise or come back as "nothing", and reports may get lost. The class performs the engine's own steps on mutable fields, each call one step of that system. |
| `WarmUp` | The look-back window of the warm-up fetch, its exact slack in weekdays, and the refusal to start blind. |
| `Stamps`, `BarHistory`, `BarStore` | The partitioned bar store: one file per symbol and UTC year, proved against a flat history filtered to the point-in-time window, with a Gregorian calendar. |
| `BarChecks`, `BarStream`, `BarFilter` | The bar-quality filter as a per-symbol state machine over unbounded streams. |
| `Exposure`, `Drawdown`, `Excursion` | Single-pass loops over intervals and equity curves, proved against the measure of a union, maxima over all pairs, and bounds on an unseen path. |
| `Bootstrap`, `SkillTests` | The stationary bootstrap's index recurrence, and the family p-value against the own p-value. |
| `Sums`, `Covariance`, `Attribution`, `LeastSquares`, `AttributionRepeats`, `Cumulation`, `CostModel` | Exact-identity arithmetic: chunk-invariant covariance, additive attribution over least squares, chain-linking, and a superadditive trading cost. |
| `AlphaRefine`, `AlphaPipeline`, `AlphaCases`, `AlphaOrder`, `AlphaPanel` | The alpha refinement pipeline on a cross-section and on the feature panel it writes to. |
| `TradeGroups`, `TradeAnalytics`, `SeriesPairs`, `SeriesComparison` | Conservation in the reports: group-by partitions, and a matrix filled in place from a pair list. |
| `Ledger` | The position ledger's replay, and which duplicated or missed events it tolerates. |
| `Seqs`, `Options` | Stable sorting, filtering, first occurrences, and the option type. |

## Conventions

- Floats are `real`: the identities below are those of exact arithmetic. `None` stands for
  NaN or an absent value; the bar filter, which branches on it, has NaN as a cell of its own.
- Timestamps are integer microseconds since 1970, with an optional offset from UTC.
- A square root is a witness: a non-negative number whose square is the argument. Where the
  code takes a standard deviation, its root is an argument constrained that way.
- Random draws, clock readings and broker answers are arguments. The regression solver, the
  per-series information ratio, the automatic block length and the correlation coefficient
  are arbitrary functions, so what is proved holds whatever they return; where least squares
  matters, the solver is any function whose answers solve the normal equations.
- A handler's step is one stretch between two suspension points, so every interleaving of
  steps is a run. History fields of `World` record the history the theorems speak about.
- A fill changes what the broker reports and emits its update in one step: a position read
  after the update was emitted includes the fill. Every other failing of the broker the code
  is exposed to is a step of its own: updates lost, from the cold start on or later; a
  position read that raises; a position read that the adapter turns into "no position" and an
  open-order check it turns into "no orders" (`tradeflow/brokers/alpaca/broker.py:212-216`,
  `274-294`); a quantity that cannot be parsed and reads as zero.

## Where the code and its documentation disagree

The model follows the code. Each disagreement is stated exactly.

- The book is described as a cache of broker state, with an entry's row recorded at
  submission and corrected by the next sweep
  (`tradeflow/execution/live_trader.py:152-165,372-382`). Only fills queue a refresh, and
  sweeps can be switched off, so an entry the venue cancels unfilled leaves a row for a
  position nobody holds (`OrderLoopTheorems.CancelledEntryLeavesPhantom`), and a failed read
  that the adapter reports as "no position" drops the row of one that is held
  (`OrderLoopTheorems.ErasedRefreshDropsRow`). With nothing left to deliver or write, the log
  determines the row of every symbol (`OrderLoopTheorems.QuiescentBook`), and
  `OrderLoopTheorems.QuiescentAgreement` says exactly when that row is the broker's.
- One engine entry per symbol is what the open-order check is for; when the adapter reports a
  failed check as "no orders" there can be two
  (`OrderLoopTheorems.ErasedCheckDoublesEntry`), and only then
  (`OrderLoopTheorems.HonestChecksMeanOneEntry`).
- Exposure is described as the fraction of the window with a position open, but holding
  periods are not clipped to the window, and a hold recorded backwards is subtracted unless an
  earlier hold absorbs it (`Exposure.NothingLostIff`, `Exposure.BackwardHoldGoesNegative`).
  `Exposure.ExposureIsFractionOfWindow` says exactly when the reported figure is that fraction:
  with nothing lost, when the holds stay inside the window or cover all of it.
  `Exposure.HoldOutsideCountsFully` is a window in which nothing is held and the figure is one,
  and `Exposure.BackwardHoldHalves` one whose holds stay inside it and the figure is half.
- The maximum drawdown is described as a fraction. On a curve that falls below a peak of zero
  it is infinite, and on one that is zero throughout undefined
  (`Drawdown.FigureIsDeepestFall`); on one that goes negative it need not be the worst pair
  (`Drawdown.NegativeEquityBreaksPairs`), and `Drawdown.WorstPairIff` says exactly when it is.
- The bar filter promises that a rejected bar leaves no trace. With the consistency check
  off, a bar with an unreadable field is remembered before the exception:
  `BarStream.ReplayableIffChecked` shows the replay law holds on all streams exactly when
  the check is on.
- The ledger's replay is described as idempotent. Repeating a cumulative report is harmless if
  and only if the order's live report counts the same (`Ledger.RepeatedReport`). The last report
  of its order can be repeated if and only if the symbol was not closed, flattened or adopted
  after it (`Ledger.DuplicateIsHarmless`); `Ledger.RepeatAfterCloseComesBack` is a file that
  breaks, and `Ledger.SupersededRepeatRollsBack` one in which an earlier report is repeated.
- An attribution's slack is described as zero by construction. For given columns, whichever
  least-squares coefficients are picked, it is zero in every period if and only if neither list
  repeats a name (`AttributionRepeats.AddsUpIffDistinct`); with two columns named alike it can
  be the whole active return (`AttributionRepeats.TwoSizesLeaveOne`).
- A trade report is described as refused over a capped table. A capped table whose total was
  not recorded raises instead (`TradeAnalytics.SomeTablesRaise`); which tables with distinct
  headers raise is said row by row (`TradeAnalytics.RaisesIffUnsoundRow`).
- The cap is described as bounding every forecast. It does nothing to forecasts that do not
  vary: `AlphaOrder.AlphaIsCapped` is the exact condition, and
  `AlphaOrder.CentredAlphasAreCapped` shows the pipeline's own forecasts meet it.

## Model

| member | source | states |
|---|---|---|
| OrderLoopTheorems.OrderPathSafety | tradeflow/engine/live.py:101-104 | At every point of every run at most one handler is in its critical section, the lock serves handlers in arrival order, orders go out in the order their signals arrived, a symbol has a second engine entry open only if the later one followed an open-order check that the broker answered with "nothing" in place of an error, and sweeps are claimed at least the interval apart. |
| OrderLoopTheorems.DisagreementIsExplained | tradeflow/engine/live.py:265-285 | At any moment of any run, for any symbol, a book row that disagrees with the broker has a fill undelivered, lost, queued or unwritten, or rests on something other than a true reading: an order that has not filled, a read that was erased or raised, a quantity of zero, or nothing at all. |
| OrderLoopTheorems.QuiescentAgreement | tradeflow/engine/live.py:265-285 | With nothing left to deliver or write and no fill of the symbol lost, the book has the broker's quantity, average price and direction for it, or no row for a flat one, if and only if its row does not mislead: it was swept, or refreshed to a quantity other than zero, or left empty while the broker is flat, and does not rest on an unfilled order sent after a true read. |
| OrderLoopTheorems.QuiescentBook | tradeflow/execution/live_trader.py:90-182 | With nothing left to deliver or write and no fill of the symbol lost, the latest deciding event and the broker determine the row of every symbol, whatever failed on the way. |
| OrderLoopTheorems.HonestChecksMeanOneEntry | tradeflow/execution/live_trader.py:255-258 | If no open-order check was erased, no symbol ever has two engine entries open. |
| OrderLoopTheorems.NoErasureNoExemption | tradeflow/execution/live_trader.py:255-258 | An entry counts as sent after an erased check only in runs that erase one. |
| OrderLoopTheorems.SweepRestores | tradeflow/engine/live.py:480-504 | A completed sweep makes the broker the basis of every row: each symbol held has a row with its quantity, average price and direction and no other symbol has one, except where a fill is still to be read. |
| OrderLoopTheorems.OwnSideCloses | tradeflow/execution/live_trader.py:398-405 | For a symbol on which book and broker agree, an exit closes the position exactly when it is for the side of its row. |
| OrderLoopTheorems.FilledAsAskedKeepsRow | tradeflow/execution/live_trader.py:167-181 | An entry that fills exactly as asked, long for a buy and short for a sell, keeps the row it wrote when the fill is re-read. |
| OrderLoopTheorems.IntentsAreSized | tradeflow/execution/live_trader.py:234-384 | At every point of every run an entry's row is for a positive quantity. |
| OrderLoopTheorems.BookConverges | tradeflow/engine/live.py:395-439 | From any point of any run, finishing the queued work in any order, failing and erased reads and lost reports included, stops within a bound and only at quiescence, and there the book agrees on every symbol with no fill lost exactly when its row does not mislead. |
| OrderLoopTheorems.DrainsAreBounded | tradeflow/engine/live.py:395-439 | No interleaving of queued work goes on for ever: a measure bounds its length. |
| OrderLoopTheorems.DrainingDoesWork | tradeflow/engine/live.py:395-439 | Every step of queued work strictly lowers the measure. |
| OrderLoopTheorems.SomethingDrains | tradeflow/engine/live.py:101-104 | No deadlock: while anything is queued or inside the lock, some step of it is enabled. |
| OrderLoopTheorems.CancelledEntryLeavesPhantom | tradeflow/engine/live.py:275-276 | A run without any failure in which a cancelled, unfilled entry leaves a book row at quiescence for a position the broker does not hold. |
| OrderLoopTheorems.ErasedRefreshDropsRow | tradeflow/brokers/alpaca/broker.py:212-216 | A run in which every order has filled and every report has arrived, and an erased read leaves the book without a row for a position that is held. |
| OrderLoopTheorems.ErasedCheckDoublesEntry | tradeflow/brokers/alpaca/broker.py:274-294 | A run in which an erased open-order check lets a second entry out beside the first. |
| OrderLoopTheorems.RunKeepsInv | tradeflow/engine/live.py:395-439 | The inductive invariant holds at every point of every run. |
| OrderLoopSafety.StepKeepsInv | tradeflow/engine/live.py:395-439 | Every step of every interleaving keeps the inductive invariant. |
| OrderLoopSafety.StepKeepsOneEntry | tradeflow/execution/live_trader.py:234-384 | Every step keeps it that of two engine entries open for one symbol the later was sent after an erased open-order check. |
| OrderLoopSafety.StepKeepsService | tradeflow/engine/live.py:101-104 | Handlers enter the critical section in the order they queued for it. |
| OrderLoopSafety.StepKeepsSending | tradeflow/engine/live.py:404-408 | Submissions keep the order of the signals that caused them. |
| OrderLoopSafety.StepKeepsSpacing | tradeflow/engine/live.py:487-495 | Because the timestamp is taken before the lock is waited for, no two sweeps are claimed within one interval. |
| OrderLoopSafety.UnreadLasts | tradeflow/engine/live.py:265-279 | A fill, reported, queued or lost, stays unread until a refresh of its symbol reads the broker or fails to, or a sweep reads it. |
| OrderLoopSafety.PendingLasts | tradeflow/execution/live_trader.py:152-182 | A pending fill is settled only by a write of an answer that covers its symbol, or by a refresh of it that raises. |
| OrderLoopSafety.WriteOfReading | tradeflow/execution/live_trader.py:90-122 | A sweep or refresh that writes what it read leaves the row the broker shows, or a fill that came in since the read; an erased refresh leaves no row. |
| OrderLoopSafety.WrittenShows | tradeflow/execution/live_trader.py:107-181 | The row a written reading leaves has the broker's quantity, average price and direction, and there is one exactly when the broker holds the symbol and, for a refresh, in a quantity other than zero; unless a fill came in since or the read was erased. |
| OrderLoopSafety.WriteOfIntent | tradeflow/execution/live_trader.py:234-426 | An entry or exit records what it asked for, which disagrees with the broker until the order's first fill is re-read, unless its own position read was erased. |
| OrderLoopSafety.StepKeepsInformed | tradeflow/execution/live_trader.py:184-229 | What a handler inside the lock has read still describes the broker, or was erased, or a fill of that symbol is unread. |
| LiveOrderEngine.LiveEngine.constructor | tradeflow/engine/live.py:101-111 | A new engine beside any broker satisfies the invariant of runs. |
| LiveOrderEngine.LiveEngine.ColdStart | tradeflow/engine/live.py:287-310 | Adopts the broker's whole book, one row for each position with its quantity, average price and direction, and counts as a sweep; a failed read leaves everything alone; either way the engine is at the start of a run. |
| LiveOrderEngine.LiveEngine.OnSignal | tradeflow/engine/live.py:425-428 | A signal is one enabled step of the run and keeps its invariant. |
| LiveOrderEngine.LiveEngine.OnTradeUpdate | tradeflow/engine/live.py:208-231 | Delivering an update is one step of the run: exactly the fills with a quantity queue a refresh of their symbol. |
| LiveOrderEngine.LiveEngine.MaybeSweep | tradeflow/engine/live.py:487-495 | The timer is one step of the run: a sweep is queued and stamped exactly when sweeping is on and none was claimed within the interval. |
| LiveOrderEngine.LiveEngine.TakeSlot | tradeflow/engine/live.py:101-104 | Taking the lock is one step of the run and keeps its invariant. |
| LiveOrderEngine.LiveEngine.PositionRead | tradeflow/execution/live_trader.py:167-210 | A position answer, true or erased, is one step of the run and keeps its invariant. |
| LiveOrderEngine.LiveEngine.BookRead | tradeflow/execution/live_trader.py:107 | The answer of list_positions is one step of the run and keeps its invariant. |
| LiveOrderEngine.LiveEngine.NothingOpen | tradeflow/execution/live_trader.py:255-258 | An empty open-order answer, true or erased, is one step of the run and keeps its invariant. |
| LiveOrderEngine.LiveEngine.Accepted | tradeflow/execution/live_trader.py:350-419 | An accepted entry or close is one step of the run and keeps its invariant. |
| LiveOrderEngine.LiveEngine.Elsewhere | tradeflow/execution/live_trader.py:152-165 | What the broker, the clock or the stream does at any moment keeps the invariant of the engine it happens beside. |
| LiveOrderEngine.LiveEngine.Release | tradeflow/engine/live.py:427-434 | Declining, or a read that raises, is one step of the run: the book stays and the lock is free. |
| LiveOrderEngine.LiveEngine.WriteAndRelease | tradeflow/execution/live_trader.py:90-122 | Each kind of handler's one book write is one step of the run and keeps its invariant: a sweep leaves exactly the rows that show what it read, a refresh changes its own row alone, an entry records its side, quantity and price, and an exit drops its row. |
| LiveOrderEngine.LiveEngine.RefreshWhenIdle | tradeflow/engine/live.py:265-279 | A fill delivered to an idle engine: after the whole refresh its row has the broker's quantity, average price and direction, or is gone with a flat or zero position, and no other row has changed. |
| LiveOrderEngine.LiveEngine.SweepWhenIdle | tradeflow/engine/live.py:480-504 | A sweep due on an idle engine: afterwards there is one row for each position held, with its quantity, average price and direction, and no other, and the sweep is stamped. |
| WarmUp.WindowHasSpareWeekdays | tradeflow/engine/live.py:513-539 | Any run of the fetched number of days, from any weekday, holds the sessions needed and at least three weekdays more. |
| WarmUp.SlackIsExact | tradeflow/engine/live.py:38-46 | From a Saturday it holds exactly that many, so the slack cannot be improved. |
| WarmUp.SessionsSuffice | tradeflow/engine/live.py:536-538 | The sessions asked for carry the doubled bar count, for every timeframe and period, and one session fewer would not. |
| WarmUp.HolidaysAreCovered | tradeflow/engine/live.py:513-539 | Up to three holidays in the window still leave twice the bars the indicators look back over. |
| WarmUp.BarsPerDay | tradeflow/marketdata/timeframe.py:87-104 | A session yields a positive, possibly fractional, number of bars at every timeframe. |
| WarmUp.SessionLength | tradeflow/marketdata/timeframe.py:87-104 | A session is 390 minutes or six and a half hours long, a day's bar one session and a week's five. |
| WarmUp.WarmUpSymbols | tradeflow/engine/live.py:342-393 | Counts the symbols with at least one bar and, among those, the ones with as many as are needed; a fetch that failed is told apart from an empty one. |
| WarmUp.CountedMeansSome | tradeflow/engine/live.py:364-383 | A count is positive exactly when some symbol reaches the floor. |
| WarmUp.StartedMeansWarm | tradeflow/engine/live.py:121-154 | Without the blind-start flag the engine starts exactly when the fetch completed and some symbol has history, or none was asked for. |
| Stamps.YearLength | tradeflow/data/store.py:73 | Consecutive years start 365 or 366 days apart by the Gregorian rule. |
| Stamps.Year | tradeflow/data/store.py:73 | The year of a stamp is the one whose first day is at or before it and whose successor's is after it. |
| Stamps.YearIs | tradeflow/data/store.py:73 | No other year brackets a stamp: its year is determined by the calendar alone. |
| Stamps.YearMonotone | tradeflow/data/store.py:156-158 | A later stamp never falls in an earlier year, which is what year pruning rests on. |
| Stamps.UtcIsInstant | tradeflow/data/store.py:250 | An instant is its wall clock less its offset from UTC, so two readings of one instant in different offsets agree. |
| Stamps.EpochIs1970 | tradeflow/data/store.py:73 | The calendar is anchored: stamp zero falls in 1970 and the one before it in 1969. |
| BarHistory.HistoryIsLatest | tradeflow/data/store.py:55-89 | After any sequence of writes and deletes each key holds the rows of the last frame written for it and not deleted since; timeframes and symbols never affect each other. |
| BarHistory.WriteFlatAt | tradeflow/data/store.py:55-77 | One write replaces exactly the histories of its timeframe's symbols that came with rows, the last frame of a repeated symbol winning. |
| BarHistory.NoRowOutsideWindow | tradeflow/data/store.py:94-137 | After any writes and deletes a scan returns a row if and only if it carries the instant and the five figures of a row of the last frame written for a symbol asked for, and that instant, wall clock less offset, is not after as_of's and less than the look-back in days before it. |
| BarHistory.WindowIsEntitled | tradeflow/data/store.py:134-138 | The window of a key holds one record for each visible row of its last frame, in frame order, with that row's instant and own figures. |
| BarHistory.SameInstantSameRow | tradeflow/data/store.py:246-256 | Two frame rows are stored alike exactly when they read the same instant and the same five figures, whatever their offsets. |
| BarHistory.AnswerIsSortedWindow | tradeflow/data/store.py:257-262 | With distinct timestamps the scan's frame is the one sorted window. |
| BarStore.PruningIsExact | tradeflow/data/store.py:140-158 | Reading only the files of the window's years loses no row of the window and repeats none. |
| BarStore.RowsCount | tradeflow/data/store.py:140-154 | A set of year files holds each row of those years exactly as often as the history does. |
| BarStore.LazyMatchesEager | tradeflow/data/store.py:185-240 | The lazy panel and the eager scan hold the same rows. |
| BarStore.ParquetBarStore.Split | tradeflow/data/store.py:66-77 | Rows are partitioned by UTC year, one file per year that occurs, nothing lost. |
| BarStore.ParquetBarStore.Write | tradeflow/data/store.py:55-77 | A write replaces whole symbol histories and leaves no stale year behind. |
| BarStore.ParquetBarStore.DeleteSymbol | tradeflow/data/store.py:79-89 | A delete removes one symbol of one timeframe and nothing else. |
| BarStore.ParquetBarStore.Perform | tradeflow/data/store.py:55-89 | Any sequence of operations leaves the partitions of the flat history they define. |
| BarStore.ParquetBarStore.YearFiles | tradeflow/data/store.py:140-154 | Exactly the years on disk between the bounds, each once; an absent bound is open. |
| BarStore.ParquetBarStore.Scan | tradeflow/data/store.py:94-121 | Answers exactly as the flat history with a window filter would, for each symbol asked once. |
| BarStore.ParquetBarStore.PartitionPaths | tradeflow/data/store.py:160-183 | The files behind a universe, pruned to the window's years when as_of is given. |
| BarStore.ParquetBarStore.ScanLazy | tradeflow/data/store.py:185-240 | The long panel is the bag of every symbol's window, repeats in the universe counted once. |
| BarStore.ScanAfter | tradeflow/data/store.py:94-121 | A scan after any operations on a new store returns, for each symbol asked for whose last frame shows any row, those rows as often as the frame has them, by timestamp. |
| BarStore.PanelAfter | tradeflow/data/store.py:185-240 | The lazy panel after any operations holds the same rows, each symbol's once however often it is asked for. |
| BarChecks.ShapeIsExact | tradeflow/engine/barcheck.py:184-203 | The consistency check passes exactly the bars with four positive finite prices, open and close inside the range and no volume known to be negative; a NaN price never passes though no check looks for one. |
| BarChecks.ReasonsAreExact | tradeflow/engine/barcheck.py:124-165 | Whatever checks are on, the guards apply in one order: a bar is out of order, stale, a spike or without volume exactly when that guard objects and every earlier one passed, and accepted exactly when none does and it can be read; staleness is the age, in the bar's own clock, against so many intervals. |
| BarChecks.ShapeReasonsAreExact | tradeflow/engine/barcheck.py:184-203 | Each of the consistency check's reasons is given exactly when its test is the first that fails, and an unreadable volume raises. |
| BarChecks.MemoryIsExact | tradeflow/engine/barcheck.py:109-122 | An accepted bar leaves its time, its close and whether it had volume; a rejected one leaves nothing; one that raises leaves what was read before, or nothing if a guard raised. |
| BarChecks.AcceptanceIsExact | tradeflow/engine/barcheck.py:124-165 | With every check on, a bar is accepted if and only if it is well shaped, later than the last, fresh, near the last close, and traded if its symbol ever did. |
| BarStream.SymbolsAreIndependent | tradeflow/engine/barcheck.py:100-122 | In any interleaving a symbol's verdicts and memory are those of a filter fed that symbol alone. |
| BarStream.ReplayAcceptsAll | tradeflow/engine/barcheck.py:100-122 | Feeding the accepted bars to a fresh filter accepts every one and ends in the same memory, when no bar was half taken. |
| BarStream.ReplayableIffChecked | tradeflow/engine/barcheck.py:107-122 | The filter is replayable on every stream if and only if its consistency check is on. |
| BarStream.HalfTakenBarBreaksReplay | tradeflow/engine/barcheck.py:118-121 | With the check off, one bar with an unreadable close already breaks the replay, whatever the other settings. |
| BarStream.OhlcCheckPreventsHalfTaken | tradeflow/engine/barcheck.py:184-203 | With the consistency check on, whatever is remembered was let through. |
| BarStream.AcceptedTimesIncrease | tradeflow/engine/barcheck.py:118-138 | With the monotonic check on, each symbol's accepted timestamps strictly increase over any stream, exceptions included. |
| BarStream.MemoryIsLastAccepted | tradeflow/engine/barcheck.py:117-122 | What is remembered of a symbol is its last accepted bar's time and close, and whether any accepted one had volume, when none was half taken. |
| BarStream.AcceptedClosesAreBounded | tradeflow/engine/barcheck.py:148-159 | With the consistency and spike checks on, the k-th later accepted close lies within the first close times (1-m)^k and (1+m)^k. |
| BarFilter.EveryBarIsCounted | tradeflow/engine/barcheck.py:167-181 | Bars seen are accepted, rejected or raised bars, and nothing else. |
| BarFilter.TallyStep | tradeflow/engine/barcheck.py:111-116 | The reason counter of a stream follows its verdicts one by one. |
| BarFilter.TotalOf | tradeflow/engine/barcheck.py:167-170 | The reported total is the sum over reasons, in any order of the dictionary. |
| BarFilter.Absorb | tradeflow/engine/barcheck.py:107-122 | The field-by-field update, exceptions in the middle of it included, is the pure decision and memory. |
| BarFilter.BarQualityFilter.constructor | tradeflow/engine/barcheck.py:85-98 | A new filter has seen nothing. |
| BarFilter.BarQualityFilter.Check | tradeflow/engine/barcheck.py:100-122 | Each call appends one judged bar; seen, states and counters stay those of the whole stream. |
| BarFilter.BarQualityFilter.ReportCounts | tradeflow/engine/barcheck.py:167-181 | The report's numbers are those of the stream, and it is elevated exactly above five rejections and one bar in twenty. |
| Exposure.MergeSorted | tradeflow/analytics/performance.py:511-527 | The single pass over sorted holds accumulates exactly the measure of their union, however they nest or touch, less the length of each backward one that no earlier hold absorbs. |
| Exposure.Exposure | tradeflow/analytics/performance.py:501-528 | The figure is that measure over the window's length, capped at one, whatever order the trades come in; zero where it cannot be measured. |
| Exposure.NothingLostIff | tradeflow/analytics/performance.py:515-527 | The measure is the union's own if and only if every hold that ends before it starts falls inside an earlier one. |
| Exposure.BackwardHoldGoesNegative | tradeflow/analytics/performance.py:515-528 | One hold recorded backwards gives a negative figure. |
| Exposure.ExposureIsFractionOfWindow | tradeflow/analytics/performance.py:501-528 | The reported figure is the fraction of the window held if and only if as much is held outside the window as backward holds take off, or the whole window is held and at least as much outside as they take off. |
| Exposure.HoldOutsideCountsFully | tradeflow/analytics/performance.py:501-528 | A window in which nothing is held, and a figure of one. |
| Exposure.BackwardHoldHalves | tradeflow/analytics/performance.py:515-528 | Holds that stay inside the window, one of them recorded backwards, and a figure half the fraction held. |
| Drawdown.MaxDrawdownIsWorstPair | tradeflow/analytics/metrics.py:203-215 | On every curve that is never negative and not zero throughout, the drawdown is the largest fractional loss over all pairs of an earlier and a later point, and some pair attains it. |
| Drawdown.WorstPairIff | tradeflow/analytics/metrics.py:203-215 | On any curve with a positive point and a finite figure some pair loses exactly the figure; no pair loses more if and only if none does that ends with negative equity. |
| Drawdown.FigureIsDeepestFall | tradeflow/analytics/metrics.py:203-215 | On every curve: infinite exactly when equity falls below a peak of zero, undefined exactly when it is zero throughout, and otherwise the deepest fall from a positive running peak. |
| Drawdown.NothingHasFallen | tradeflow/analytics/metrics.py:203-215 | An empty curve has no drawdown, as a fraction or in currency. |
| Drawdown.NegativeEquityBreaksPairs | tradeflow/analytics/metrics.py:203-215 | A curve that goes negative on which the figure is not the worst pair. |
| Drawdown.DollarDrawdownIsWorstPair | tradeflow/analytics/performance.py:531-536 | The currency drawdown is the largest fall over all such pairs, negative equity included. |
| Drawdown.PeakIsMaximum | tradeflow/analytics/metrics.py:208 | The running maximum is attained and bounds every earlier point. |
| Drawdown.MaxDrawdownDuration | tradeflow/analytics/metrics.py:218-228 | The length of the longest contiguous stretch in which every point is below some earlier point. |
| Drawdown.Consecutive | tradeflow/analytics/metrics.py:448-456 | The length of the longest stretch of winning, or losing, trades. |
| Excursion.PortfolioExcursion | tradeflow/analytics/excursion.py:42-137 | The reported extremes are true maxima against the running closing peak, at the first step that reaches them; the equity shown there is the recorded one, zero where none was recorded although the close was measured in its place. |
| Excursion.FiguresMean | tradeflow/analytics/excursion.py:99-117 | Step by step, each figure is at least that step's percentage of the running closing peak, an absent extreme read as the close and an absent close as zero, and is that percentage at the step it points at. |
| Excursion.RealizedWorstIsBracketed | tradeflow/analytics/excursion.py:63-94 | Any path between the simultaneous lows and the closes has its worst depth between the two reported numbers. |
| Excursion.UnderstatementIsNonNegative | tradeflow/analytics/excursion.py:126-135 | The intra-bar figure is never milder than the closing one. |
| Excursion.ClosingFigureIsMaxDrawdown | tradeflow/analytics/excursion.py:95-125 | The closing figure is one hundred times the equity curve's maximum drawdown whenever that is a number. |
| Bootstrap.StationaryBootstrapIndices | tradeflow/analytics/bootstrap.py:138-162 | The row-by-row recurrence computes the closed form: chains of blocks, each running on from its head and wrapping around the sample. |
| Bootstrap.Continues | tradeflow/analytics/bootstrap.py:155-161 | In the closed form, a step whose uniform draw is below the restart chance takes its own fresh draw, and any other follows its predecessor by one, modulo the length. |
| Bootstrap.RestartChance | tradeflow/analytics/bootstrap.py:153 | The restart chance is a probability: one over the block length, and one for lengths below one. |
| Bootstrap.LongerBlocksRestartLess | tradeflow/analytics/bootstrap.py:153-157 | With the same draws a longer block length only removes block boundaries. |
| SkillTests.PValueRange | tradeflow/analytics/bootstrap.py:165-168 | A p-value over B rounds lies between 1/(B+1) and one. |
| SkillTests.PValueCounts | tradeflow/analytics/bootstrap.py:165-168 | A p-value is one more than the number of rounds whose figure reaches the observed one, over one more than all rounds. |
| SkillTests.PValueExtremes | tradeflow/analytics/bootstrap.py:165-168 | It is one if and only if every round reaches the observed figure, and 1/(B+1) if and only if none does. |
| SkillTests.OneMoreReaches | tradeflow/analytics/bootstrap.py:165-168 | Moving one round up to the observed figure adds exactly 1/(B+1). |
| SkillTests.BootstrapNullCounts | tradeflow/analytics/bootstrap.py:181-256 | A record of fewer than eight returns is no evidence; of a longer one the three p-values count the rounds in which the centred, resampled record does as well as the record, at the block length and at half, no shorter than one, and double it, and the flag says whether significance changes among them. |
| SkillTests.RealityCheckCounts | tradeflow/analytics/bootstrap.py:261-332 | Of a panel the three p-values count the rounds in which some trial, resampled less its own mean, does as well as every trial did. |
| SkillTests.HigherNullsHigherP | tradeflow/analytics/bootstrap.py:165-168 | A null distribution that is nowhere lower never gives a smaller p-value. |
| SkillTests.Best | tradeflow/analytics/bootstrap.py:311-313 | The selected trial is the first with the largest ratio. |
| SkillTests.MaxNullIsMax | tradeflow/analytics/bootstrap.py:321-330 | A round's family statistic is the largest of the columns' under the same resampling: none exceeds it and some column attains it. |
| SkillTests.FamilyIsNeverMoreSignificant | tradeflow/analytics/bootstrap.py:311-334 | With the same draws the family p-value is never below the selected trial's own, at the block length used and at half and double it. |
| SkillTests.AnotherTrialCosts | tradeflow/analytics/bootstrap.py:321-334 | Adding a trial that does not beat the best can only raise the family p-value, at all three block lengths. |
| SkillTests.OneTrialFamily | tradeflow/analytics/bootstrap.py:261-332 | With one trial the two functions give the same outcome. |
| Covariance.StreamingCovariance | tradeflow/data/compute.py:253-279 | One pass over the chunks gives the covariance of the rows alone, however they were split and with empty chunks skipped; differing widths are refused exactly when there are some. |
| Covariance.UncentredIsCentred | tradeflow/data/compute.py:275-279 | The accumulated form equals the centred average of outer products. |
| Covariance.CovarianceIsSymmetric | tradeflow/data/compute.py:253-279 | The matrix is symmetric. |
| Covariance.CovarianceIsPositive | tradeflow/data/compute.py:253-279 | No weight vector has negative variance. |
| Covariance.VarianceIsMeanSquare | tradeflow/data/compute.py:253-279 | The variance of a weight vector is the mean squared centred return along it. |
| Covariance.IterRowChunks | tradeflow/data/compute.py:282-292 | The blocks concatenate back to the matrix, each but the last of exactly the size asked for and the last of what is left; a size below one is an error. |
| Covariance.CovarianceInChunks | tradeflow/data/compute.py:230-292 | Chunking a matrix and streaming the chunks gives its covariance, whatever the chunk size; a size below one is an error, and an empty matrix comes back with no columns. |
| Attribution.RegressionIdentity | tradeflow/analytics/attribution.py:32-44 | Fit plus residual is the return, whatever the solver gives and in the degenerate branch too. |
| Attribution.DegenerateRegression | tradeflow/analytics/attribution.py:40-42 | Without columns, or with no more names than columns, the coefficients are zero and the residual is the return. |
| LeastSquares.RegressionIsLeast | tradeflow/analytics/attribution.py:32-44 | Under a solver that answers by the normal equations the residual is orthogonal to every column, and no other coefficients leave smaller squares. |
| LeastSquares.LeastSquaresExist | tradeflow/analytics/attribution.py:43 | Such a solver exists for every width: the normal equations have a solution for every design, repeated and empty columns included. |
| Attribution.FitIsContributions | tradeflow/analytics/attribution.py:142-151 | The weighted fit is the sum of the factor contributions: the two sums exchange. |
| Attribution.PartsAddUp | tradeflow/analytics/attribution.py:123-157 | Systematic, contributions and specific add up to the active return, whatever the coefficients. |
| Attribution.CommonMeans | tradeflow/analytics/attribution.py:111-119 | A name takes part exactly when it is in every input with all its cells, signals counting once there are any. |
| Attribution.PanelMeans | tradeflow/analytics/attribution.py:123-137 | The weights, returns, betas and design rows are those of the names that take part, risk factors before signals. |
| Attribution.StrippedMeans | tradeflow/analytics/attribution.py:130-134 | What is regressed is each return less its beta's share of the benchmark, and the systematic return is the weighted beta times the benchmark's. |
| Attribution.AttributedMeans | tradeflow/analytics/attribution.py:119-158 | A period is attributed unless fewer names than two more than the columns take part, and reports the weighted return, the weighted beta, what it earned and the weighted remainder of the regression. |
| Attribution.SlackMeans | tradeflow/analytics/attribution.py:153-157 | The slack is whatever the reported parts, each dictionary's values once, miss of the return. |
| Attribution.ContributionMeans | tradeflow/analytics/attribution.py:142-151 | A column's contribution is its coefficient times the book's exposure to it. |
| Attribution.ResidualIsWhatRepeatsDrop | tradeflow/analytics/attribution.py:142-157 | The reported slack is exactly what repeated column names drop from the two dictionaries. |
| Attribution.AttributionIsExact | tradeflow/analytics/attribution.py:64-170 | With distinct column names the slack is zero in every period and under every solver. |
| AttributionRepeats.AddsUpIffDistinct | tradeflow/analytics/attribution.py:142-157 | For given risk and signal columns, under each solver that answers by least squares, the slack is zero in every period if and only if neither list repeats a name. |
| AttributionRepeats.RepeatLeavesSlack | tradeflow/analytics/attribution.py:142-157 | Whatever columns there are, repeating one leaves, under each least-squares solver, a period whose slack is its whole active return of one. |
| AttributionRepeats.TwoSizesLeaveOne | tradeflow/analytics/attribution.py:142-157 | Concretely, two risk columns both named "size", a least-squares solver, and an active return of one that is all slack. |
| Attribution.EachColumnOwnsItsContribution | tradeflow/analytics/attribution.py:139-151 | With distinct names every risk factor and every signal is credited with its own column's contribution. |
| Attribution.DistinctDictSum | tradeflow/analytics/attribution.py:142-151 | A dictionary built over distinct names sums to all its values. |
| Cumulation.SplitIsExact | tradeflow/analytics/attribution.py:176-217 | Expected, surprise and timing add up to the systematic return, whatever benchmark return was assumed. |
| Cumulation.SplitParts | tradeflow/analytics/attribution.py:202-217 | Expected is what the betas would have earned at the assumed return, surprise what they earn from the benchmark's average exceeding it, and timing the sum of the joint deviations from the two averages. |
| Cumulation.NothingLeftToChance | tradeflow/analytics/attribution.py:202-217 | A constant beta has no timing and a benchmark that earned what was assumed no surprise. |
| Cumulation.CumulateTopDown | tradeflow/analytics/attribution.py:307-354 | Each component is linked by the growth before each period, one of length one stretched to fit and one of another length an error; the totals are the compounded books. |
| Cumulation.LinkedMeans | tradeflow/analytics/attribution.py:339-343 | A component as long as the series is linked period by period, one of length one to every period, a series of length one to every value, and any other pair of lengths is the error. |
| Cumulation.GrowthCompounds | tradeflow/analytics/attribution.py:339 | Growth before the first period is one and each period compounds the return before it. |
| Cumulation.LinkingTelescopes | tradeflow/analytics/attribution.py:339-346 | When the components sum to the active return in each period, the linked sum is the compounded growth less one at every prefix. |
| Cumulation.CumulationIsExact | tradeflow/analytics/attribution.py:327-354 | The linked components sum to the naive compounding, and with the compounding residual to the difference of the two books. |
| CostModel.LinearPartIsTurnoverRate | tradeflow/costs/parametric.py:87-94 | Commission and spread are the optimizer's linear rate times the notional. |
| CostModel.SpreadIsHalfTheQuote | tradeflow/costs/parametric.py:44-54 | Half the trade's own quoted spread is paid, the default only where none was quoted, beside the commission rate. |
| CostModel.ImpactIsCharged | tradeflow/costs/parametric.py:44-68 | A trade of no value costs nothing; without volume information there is no impact but the flag; otherwise impact goes with its share of the day's volume, or the root of it, and is flagged above the cap. |
| CostModel.SmallerRate | tradeflow/costs/parametric.py:44-68 | A smaller participation never pays a higher impact rate, and a strictly smaller one a strictly lower. |
| CostModel.PiecesCostNoMore | tradeflow/costs/parametric.py:44-68 | However a trade, long or short, is cut into pieces of its own direction, the pieces never cost more than the whole, and strictly less when impact is charged and a piece lies strictly inside. |
| CostModel.SameSizeSameCost | tradeflow/costs/base.py:45-52 | Only the size of a trade is priced: a short one costs what the long one costs. |
| CostModel.ImpactMatchesCoefficient | tradeflow/costs/parametric.py:96-111 | Impact on a traded weight w is capital times the optimizer's coefficient times w to the power 3/2. |
| CostModel.NoCoefficient | tradeflow/costs/parametric.py:107-111 | There is no coefficient without volume, capital or volatility, nor under linear impact. |
| AlphaRefine.QuantileKeepsOrder | tradeflow/alphas/refine.py:24-35 | A higher interpolated quantile is no lower, so winsorize limits in order clip in order. |
| AlphaRefine.QuantileAtRank | tradeflow/alphas/refine.py:33-34 | At a rank the quantile is that rank's value, the smallest and the largest included. |
| AlphaRefine.QuantileMixes | tradeflow/alphas/refine.py:33-34 | Between two ranks the quantile mixes their values, weighted by how near the position is to each. |
| AlphaRefine.WinsorizeMeans | tradeflow/alphas/refine.py:24-35 | Values outside the quantiles become the quantile and no other value moves; limits given backwards are taken the right way round. |
| AlphaRefine.ZscoreIsStandard | tradeflow/alphas/refine.py:49-62 | Scores come out with mean zero and unit dispersion, or all zero when they do not vary. |
| AlphaRefine.CaseScaleFactor | tradeflow/alphas/refine.py:116-146 | The Case 2 constant is the number that times the dispersion of the vol-scaled scores gives that of the scores, and is formed exactly when there are two scores, a positive vol and some dispersion. |
| AlphaRefine.RatioAt | tradeflow/alphas/refine.py:138-141 | The vol-scaled scores are one for each name of positive vol, in order, and so many vols of it are its score. |
| AlphaCases.UniformFactor | tradeflow/alphas/refine.py:116-146 | The Case 2 constant is dispersion-matched: on names that share one positive vol it is that vol. |
| AlphaCases.UniformScale | tradeflow/alphas/base.py:152-157 | With the fallback for a constant that cannot be formed, the scale is the common vol on every such cross-section, a zero vol included. |
| AlphaCases.CasesAgreeOnUniformVols | tradeflow/alphas/base.py:143-181 | On a cross-section that shares one vol the two scalings give the same forecasts, before and after the cap. |
| AlphaRefine.LevelShrinkFactor | tradeflow/alphas/refine.py:273-285 | The level shrink is in [0, 1): one over one plus the reciprocal of the effective history times the squared IC, and zero without evidence. |
| AlphaRefine.MoreEvidenceShrinksLess | tradeflow/alphas/refine.py:273-285 | More effective history never shrinks more. |
| AlphaRefine.CapMeans | tradeflow/alphas/refine.py:288-300 | A forecast beyond the allowed number of standard deviations becomes that number of them, on its own side of zero, and any other is untouched, as all are when they do not vary. |
| AlphaRefine.CapKeepsOrder | tradeflow/alphas/refine.py:288-300 | Capping never reverses two forecasts. |
| AlphaPipeline.RefinementKeepsOrder | tradeflow/alphas/base.py:105-185 | On a full universe with Case 2 scaling, no neutralization and non-negative IC and vols, a name scored no higher is never forecast higher, end to end. |
| AlphaPipeline.ChainExplainsAlpha | tradeflow/alphas/base.py:143-177 | Before the cap every forecast is its score times the product of the recorded multipliers, and its own vol under Case 1. |
| AlphaPipeline.StandardizedMeans | tradeflow/alphas/base.py:111-141 | A thin universe's scores are centred; a full one's are the regression residual when neutralizing, and otherwise the centred winsorized scores in standard deviations. |
| AlphaPipeline.ForecastMeans | tradeflow/alphas/base.py:143-177 | Before the cap a forecast is its name's vol, or on a full universe under Case 2 the one constant or the mean vol, times the IC, the standardized score and the share kept, and the audit trail records exactly those. |
| AlphaPipeline.AlphaMeans | tradeflow/alphas/base.py:179-185 | On a full universe that varies a forecast is pulled in to the allowed number of standard deviations, and elsewhere it is left alone. |
| AlphaOrder.AlphaIsCapped | tradeflow/alphas/refine.py:288-300 | A forecast of a full universe lies within the allowed number of standard deviations if and only if the forecasts vary or it is zero. |
| AlphaOrder.CentredAlphasAreCapped | tradeflow/alphas/base.py:113-181 | With non-negative vols, every forecast of a full universe is capped when it was standardized, or neutralized to a residual that sums to zero: forecasts that do not vary are then all zero. |
| AlphaPipeline.PerNameVolsReorder | tradeflow/alphas/refine.py:97-113 | Per-name scaling does not keep the order of scores: a thin universe whose forecasts reverse two names. |
| AlphaOrder.PerNameVolsKeepOrderIff | tradeflow/alphas/refine.py:97-113 | Per-name vols keep the order of every centred cross-section if and only if they do not differ or there are at most two names. |
| AlphaPanel.PanelOrderIsKept | tradeflow/alphas/base.py:81-185 | The same on the panel with missing scores and vols: order is kept among scored names and the rest have no forecast. |
| AlphaPanel.ScoredName | tradeflow/alphas/base.py:94-148 | Each scored name goes in with its own score and its own vol, the default where it has none, and what comes out for it goes back to its own place. |
| AlphaPanel.FeaturePanel.constructor | tradeflow/data/panel.py:36-40 | A panel lists each symbol once, in order of first occurrence. |
| AlphaPanel.FeaturePanel.RefineAlpha | tradeflow/alphas/base.py:81-185 | Writes exactly the score and forecast columns, each scored name's own figure in its own place, and the flags; without scores it changes no column. |
| AlphaPanel.FeaturePanel.ToAlphas | tradeflow/alphas/base.py:188-213 | Lists exactly the names with a forecast, highest first, ties in panel order, each with its own vol and score or the default and zero. |
| TradeGroups.WinLossOver | tradeflow/analytics/trade_analytics.py:166-191 | Wins are the trades measured above zero, losses those below, gross profit and loss their sums, positive and negative exactly when there are some; with the level and unmeasured trades they account for every row, and the net is the two sums together. |
| TradeGroups.ExitReasonBreakdown | tradeflow/analytics/trade_analytics.py:206-224 | One row per reason, with the numbers of that reason's trades, of those measured, won and lost, what they gained and lost, and their share of all; ranked by descending net, unmeasured last, ties alphabetical. |
| TradeGroups.RowsAreRanked | tradeflow/analytics/trade_analytics.py:211-224 | Rows come by descending net P&L, unmeasured groups last, ties alphabetical. |
| TradeGroups.GroupsConserve | tradeflow/analytics/trade_analytics.py:211-223 | Any quantity that adds up over trades adds up to the same total over the groups. |
| TradeGroups.BreakdownConserves | tradeflow/analytics/trade_analytics.py:206-224 | The rows account for every trade and their nets for the overall net. |
| TradeGroups.SharesSumToOne | tradeflow/analytics/trade_analytics.py:221-222 | The shares sum to one whenever there are trades. |
| TradeAnalytics.Columns | tradeflow/analytics/trade_analytics.py:79-92 | The table transposed: every header's cells in row order, a repeated header's cells interleaved. |
| TradeAnalytics.ColumnIsPadded | tradeflow/analytics/trade_analytics.py:79-92 | With distinct headers a column holds exactly one cell per stored row: a short row is padded, never dropped. |
| TradeAnalytics.DistinctHeadersPairUp | tradeflow/analytics/trade_analytics.py:206-212 | With distinct headers the reason and P&L columns always have the same length. |
| TradeAnalytics.AnalyzeTrades | tradeflow/analytics/trade_analytics.py:294-352 | A total over part of a run is refused unless a partial one is asked for; otherwise each section modelled is there exactly when its columns are and is computed from them. It raises exactly when a capped table without a recorded total is to be refused, or a table is aggregated in which the two columns of the exit breakdown differ in length, an entry and its exit mix naive and aware timestamps, or a number asked for is beyond the range of floats. |
| TradeAnalytics.Durations | tradeflow/analytics/trade_analytics.py:245-264 | The time from each entry to its exit, one per entry, unmeasured where a stamp is missing; it raises exactly when some entry and its exit mix naive and aware stamps. |
| TradeAnalytics.SomeTablesRaise | tradeflow/analytics/trade_analytics.py:245-326 | A capped table without a total, one with a repeated header, and one with a naive entry and an aware exit, on which it raises. |
| TradeAnalytics.RaisesIffUnsoundRow | tradeflow/analytics/trade_analytics.py:294-352 | A table with distinct headers raises if and only if it is capped, refused and without a recorded total, or it is aggregated and some row mixes naive and aware entry and exit stamps or holds a number too large for a float in a column read as floats. |
| TradeAnalytics.ReportConserves | tradeflow/analytics/trade_analytics.py:294-352 | The sections of a report account for every stored row, for the overall net, and for one whole. |
| TradeAnalytics.SectionsByRow | tradeflow/analytics/trade_analytics.py:79-107 | With distinct headers the overall section and the exit rows are taken over the number and the reason each stored row holds, in order. |
| SeriesPairs.SharedDatesAreUsable | tradeflow/analytics/series_comparison.py:150-157 | The shared points are exactly the dates both series carry a finite value on. |
| SeriesPairs.SharedMeansBothCarry | tradeflow/analytics/series_comparison.py:150-157 | A date is shared exactly when the last value each series recorded for it is finite. |
| SeriesPairs.PointsAreOwn | tradeflow/analytics/series_comparison.py:150-157 | The points compared are each series' own last recorded values on the shared dates, date by date. |
| SeriesPairs.VerdictIsExact | tradeflow/analytics/series_comparison.py:135-173 | A pair is refused for the first thing that rules it out, and compared exactly when both series exist, share a basis or were asked across it, overlap enough and both vary. |
| SeriesPairs.OverlapIsSymmetric | tradeflow/analytics/series_comparison.py:150-159 | The overlap is the same whichever series comes first. |
| SeriesPairs.VerdictIsSymmetric | tradeflow/analytics/series_comparison.py:115-198 | A pair is compared either way round or refused either way round. |
| SeriesComparison.Deduplicate | tradeflow/analytics/series_comparison.py:201-217 | Keeps the first entry of each id and names the repeats. |
| SeriesComparison.FirstsAreDistinct | tradeflow/analytics/series_comparison.py:201-217 | The kept entries have distinct ids. |
| SeriesComparison.FirstsKeepFirst | tradeflow/analytics/series_comparison.py:201-217 | Every id's kept entry is its first occurrence. |
| SeriesComparison.PairsBelowCount | tradeflow/analytics/series_comparison.py:242-252 | The nested loops visit n(n-1)/2 pairs. |
| SeriesComparison.ListPairs | tradeflow/analytics/series_comparison.py:242-252 | Every pair of kept entries is listed once, in loop order. |
| SeriesComparison.FillMatrix | tradeflow/analytics/series_comparison.py:257-265 | The matrix filled in place from the pair list holds each compared pair in its two cells and nothing elsewhere. |
| SeriesComparison.CompareSeries | tradeflow/analytics/series_comparison.py:220-279 | The matrix is symmetric with ones on the diagonal, an off-diagonal cell is that pair's correlation exactly where it was compared, and compared plus refused is the number of pairs. |
| Ledger.ReplayIsNet | tradeflow/execution/ledger.py:519-585 | The forward pass over two dictionaries gives what reading the file backwards gives. |
| Ledger.ExpectedPositions | tradeflow/execution/ledger.py:508-585 | Exactly the symbols whose net exceeds dust are reported, with that net. |
| Ledger.PositionAfter | tradeflow/execution/ledger.py:541-573 | A close or a flatten makes a position zero and an adoption what was adopted, short below zero; a fill not reported before adds what was bought or takes off what was sold; other symbols' lines do nothing. |
| Ledger.RepeatedReport | tradeflow/execution/ledger.py:519-530 | A report repeated at the end of the file changes the position exactly when the order's live report does not already count the same. |
| Ledger.DuplicateIsHarmless | tradeflow/execution/ledger.py:519-530 | Replaying an order's last report is harmless if and only if its symbol was not reset since. |
| Ledger.RepeatAfterCloseComesBack | tradeflow/execution/ledger.py:519-530 | A filled and closed position that comes back when its fill is reported again. |
| Ledger.SupersededRepeatRollsBack | tradeflow/execution/ledger.py:519-530 | A superseded report that takes its successor's place when it is repeated, with nothing reset between. |
| Ledger.MissedPartialIsHarmless | tradeflow/execution/ledger.py:519-530 | A report that a later one of its order supersedes can be missed, wherever it stood. |

## Left out

- Live engine: ledger bookkeeping around the order path, start-up timeouts, teardown, and brokers without a trade-update stream. Stop levels are a function of side and price and not part of a book entry; resting orders an exit cancels appear as orders the broker lapses; an order the broker accepts while raising appears as one placed elsewhere; the deterministic client order id, by which the venue refuses the same bar's order twice, appears as a declined entry.
- OrderLoopTheorems.BookConverges: assumes that a position read after a fill's update was emitted includes the fill; a broker whose positions lag its own updates is not modelled.
- LiveOrderEngine: cancellation of a handler between two of its steps; each method is one stretch between suspension points.
- Bar store: directory and Parquet mechanics, column projection, year directories whose names do not parse, and symbols whose encoded paths coincide.
- BarStore.ParquetBarStore.Scan: leaves the order of rows with equal timestamps open, because the sort the source uses is not stable.
- Bar filter: infinite floats.
- Exposure.Exposure: assumes one shared offset for the timestamps; the per-row zone stripping is not modelled.
- Drawdown.MaxDrawdownIsWorstPair: is about curves that never go negative; Drawdown.WorstPairIff and Drawdown.FigureIsDeepestFall are about the others.
- Bootstrap: the automatic block length and the standard errors.
- Attribution: the solver's numerics, which of several least-squares answers it picks, the blend and significance statistics.
- Cost model: carry and borrow rates, and the optimizer's curvature fit, which are single expressions.
- Alpha pipeline: choosing and regressing on exposures and the flags that record it; the neutralized residual comes in as an argument.
- AlphaOrder.PerNameVolsKeepOrderIff: is about the scaling of centred scores, as a thin universe has them; that a full universe's also have unit dispersion is not asked for, and which of those winsorizing can produce is not modelled.
- AlphaRefine.CaseScaleFactor: the case test that decides between the two scalings is not modelled, its verdict is an argument.
- Trade analytics: concentration, average and ratio figures, the distributions of durations and excursions, and the display label of an empty reason.
- SeriesPairs.VerdictIsSymmetric: the correlation itself is an arbitrary function, so equality of the two coefficients is conditional on that function's symmetry.
- Series comparison: Fisher intervals, per-series summaries and the highest pair.
- Ledger: reconciliation, lifecycles, sessions, file input, and an order id that spells the key of an uncollapsed line.
- WarmUp.HolidaysAreCovered: does not model float rounding of the window arithmetic.
- Rendering, command line, configuration, and broker and data-feed network calls.
