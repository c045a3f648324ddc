# Verification of the research engine

A Dafny 4.11 model of the deterministic parts of the research engine and of the stateful stores around it,
with proofs about whole runs. `dafny verify dfyconfig.toml` checks everything.

| file | what it models |
|---|---|
| `RealVectors.dfy`, `ProximalSolver.dfy`, `SolverLoop.dfy`, `SolverInFull.dfy` | the Huber elastic-net solver: a proximal-gradient loop on an intercept and a coefficient vector |
| `StableSort.dfy`, `SimulationEvents.dfy` | the total order on simulation events and the clock |
| `PortfolioLedger.dfy`, `LedgerInFull.dfy` | the signed-position ledger with average cost |
| `BacktestEngine.dfy`, `OrderProjection.dfy`, `EngineInFull.dfy` | order states, the fill model and the event loop; each order of a joint run seen alone |
| `TradeReplay.dfy`, `ReplayInFull.dfy` | the daily replay: candidates, their orders and quotes, and the trades of a fold |
| `RawRecorder.dfy`, `RecorderInFull.dfy` | write file, insert or lose, unlink: many writers interleaved step by step, with failures and crashes |
| `OfiFeatures.dfy`, `FiltersInFull.dfy`, `FeaturesInFull.dfy` | the ten-minute order-flow feature: hard filters and time-weighted sums |
| `RiskEngine.dfy`, `RiskInFull.dfy` | kill switches and sizing under several caps with lot rounding |
| `Lineage.dfy` | the backwards worklist search over lineage edges |
| `ValidationHarness.dfy`, `HarnessInFull.dfy`, `InnerFolds.dfy`, `FoldsInFull.dfy` | train, validation, sealed test, walk forward; the folds inside a fit and the one-standard-error rule |
| `Drawdown.dfy` | drawdown in one pass, and the profit share of the best days |
| `KrxPrefetch.dfy`, `KrxInFull.dfy` | the paced, retrying, caching daily provider, its backwards prefetch, and the coverage check |
| `FrameCodec.dfy`, `FramesInFull.dfy` | decoding and printing KIS data frames |
| `AliasMaster.dfy`, `AliasesInFull.dfy` | symbol aliases with intervals of validity, and corporate actions in force |
| `StudyRows.dfy`, `StudyInFull.dfy` | the row builders of the pre-falsification study, both variants |
| `Wrappers.dfy`, `Numbers.dfy` | missing values, results, and small real arithmetic |

How the model reads the source:

- Decimals and floats are exact reals; timestamps are integers, dates are their ordinals; a dictionary is a map,
  or the list it was built from where its order matters and its keys are distinct.
- Objects whose methods change them (ledger, order states, clock, recorder, KRX provider, instrument master) are
  classes; their methods are proved against functions on values, and the theorems are about those functions.
- A loop in the source is a loop here, proved equal to a recursive function of its inputs.
- A method is proved against functions, and those share definitions with it. The modules named `...InFull` therefore
  state what an operation gives on its inputs alone: which bars, days, quotes and amounts go into a number, and exactly
  when each verdict and each reason code is given.
- Errors are results or out-parameters; an error proved unreachable is one whose branch is still in the code.
- What the program takes from outside is a parameter: the median and the largest eigenvalue (with its quadratic-form
  bound, `ProximalSolver.EigenBound`), the hash, the natural logarithm, the fit, the day's outcome and the gate of
  the harness, the provider's replies, latency and clock, and what feature and strategy make of a basis day's bars.
- Concurrency is a state machine: a run of the recorder is any sequence of single steps of any writers.

Five places where the code departs from its own words, from itself, or from what happened; the code is what is
modelled:

- The comment at `src/skhy_research/engine/portfolio.py:39` speaks of every reversal; the guard at line 38 resets the
  average cost only when the new position is larger than the old one. `Portfolio.IdentityIffNoStaleReversal` gives
  the exact condition for the accounting identity and `Portfolio.FillDefect` the exact error.
- Appending events after the window's end can change a result: with no baseline quote, the first late quote adds
  `SNAPSHOT_AFTER_151000`. `OfiFeatures.AppendUnchangedIff` gives the exact condition, and
  `OfiFeatures.LateQuoteShows` an input.
- The two readings of program amounts part at the window's start: the sum of increments counts an event at exactly
  that time (`src/skhy_research/features/h1_close_pressure/continuous_ofi.py:239`), the difference of cumulative
  values does not (line 225). `FeaturesInFull.ReadingsAgreeIff` gives the exact condition.
- A fold reports its gross profit on the whole order quantity (`src/skhy_research/application/h1_daily_proxy_walk_forward.py:544-548`),
  although a day's volume may fill less of it. `TradeReplay.ReportedIffCovered` gives the exact condition,
  `TradeReplay.ShortVolumeOverstates` a day, and the fold's ledger holds what was really earned.
- The recorder unlinks the candidate's file on any exception of its transaction
  (`src/skhy_research/adapters/persistence/raw_recorder.py:107-109`), also when the row was committed and only the
  acknowledgement was lost. `RawRecorder.RunIsSafe` says that a row loses its file exactly then, and
  `RawRecorder.LostCommitLosesFile` gives a run.

Every lemma carries `{:induction false}`: no proof rests on an induction that Dafny adds by itself. Many small lemmas
need no proof step and have an empty body or one that only guides the solver.

## Model

| member | source | states |
|---|---|---|
| ProximalSolver.HuberTangent | src/skhy_research/application/h1_continuous_ofi_proxy.py:609-615 | For any residuals r and s the Huber loss lies between its tangent at r, whose slope is the clipped residual, and that tangent plus half the squared distance |
| ProximalSolver.SoftThresholdMinimises | src/skhy_research/application/h1_continuous_ofi_proxy.py:596 | The thresholded value is the exact minimiser of its one-dimensional subproblem, with quadratic growth around it |
| ProximalSolver.ProximalMoveStep | src/skhy_research/application/h1_continuous_ofi_proxy.py:595-596 | The coefficient-wise move beats every other vector on the linearised problem by half the squared distance to it |
| ProximalSolver.Transposition | src/skhy_research/application/h1_continuous_ofi_proxy.py:590-594 | The slope computed row by row (residual side) equals the slope computed column by column (gradient side) |
| ProximalSolver.SmoothPartTangent | src/skhy_research/application/h1_continuous_ofi_proxy.py:590-594 | The smooth objective exceeds its tangent by something between 0 and half of the prediction energy per row plus the ridge energy of the move: the code's gradient is its gradient, and it is convex |
| ProximalSolver.SmoothPartUpper | src/skhy_research/application/h1_continuous_ofi_proxy.py:584-586 | With the eigenvalue bound on the quadratic form, the smooth part is below its tangent plus half the Lipschitz constant times the squared move |
| ProximalSolver.StepSizesSuitable | src/skhy_research/application/h1_continuous_ofi_proxy.py:585-588 | The step 0.95/max(L, 1e-12) and its l1 step satisfy what the descent argument needs, degenerate L included |
| ProximalSolver.StepAgainst | src/skhy_research/application/h1_continuous_ofi_proxy.py:589-602 | One pass from x to y: the scaled objective at y is below that at any point u, up to the change in squared distance to u |
| ProximalSolver.Descent | src/skhy_research/application/h1_continuous_ofi_proxy.py:589-602 | Every pass lowers mean Huber + ridge + lasso by at least 0.525/step times the squared move; it never raises it |
| ProximalSolver.StandsStillIffMinimiser | src/skhy_research/application/h1_continuous_ofi_proxy.py:589-604 | A pass leaves the point where it is if and only if the point is a global minimiser of the objective |
| ProximalSolver.Rate | src/skhy_research/application/h1_continuous_ofi_proxy.py:589-604 | After k passes the objective is within squared distance(u, x)/(2*step*k) of its value at any point u, and never above its start |
| ProximalSolver.SnapCost | src/skhy_research/application/h1_continuous_ofi_proxy.py:605 | Zeroing coefficients of size at most 1e-12 raises the objective by at most delta*1e-12 times the mean absolute row sum |
| ProximalSolver.ReturnedPoint | src/skhy_research/application/h1_continuous_ofi_proxy.py:589-606 | What the function returns is no worse than its starting point, up to that clean-up cost |
| SolverLoop.ProximalHuberElasticNet | src/skhy_research/application/h1_continuous_ofi_proxy.py:571-606 | The loop returns the cleaned-up k-fold iterate from (median, 0), where k is the limit or the first pass that moves neither intercept nor any coefficient by more than the tolerance (SolverInFull.LastPassIsStill and EarlierPassMoves say so of the two points); if eigen meets its bound, the result is no worse than the start and within squared distance/(2*step*k) of any point's objective, up to the clean-up cost |
| SolverLoop.EigenBoundExists | src/skhy_research/application/h1_continuous_ofi_proxy.py:584-586 | For every problem some number meets the bound that is assumed of the largest eigenvalue |
| SolverInFull.LastPassIsStill | src/skhy_research/application/h1_continuous_ofi_proxy.py:597-604 | If the loop stops short of its limit, its last pass moved the intercept and every coefficient by at most the tolerance |
| SolverInFull.EarlierPassMoves | src/skhy_research/application/h1_continuous_ofi_proxy.py:597-604 | Every pass before the last one moved the intercept or some coefficient by more than the tolerance |
| SolverInFull.StepSizesAre | src/skhy_research/application/h1_continuous_ofi_proxy.py:584-588 | The two step sizes as the quotients and products of the settings, with the floor of 1e-12 |
| SolverInFull.PassMovesIntercept | src/skhy_research/application/h1_continuous_ofi_proxy.py:590-592 | A pass adds the step times the mean clipped residual to the intercept |
| SolverInFull.PassMovesCoefficient | src/skhy_research/application/h1_continuous_ofi_proxy.py:593-596 | A pass moves coefficient j against its slope, summed over column j, and then towards zero by the l1 step, where it stops |
| SolverInFull.ObjectiveIs | src/skhy_research/application/h1_continuous_ofi_proxy.py:609-615 | What the passes lower is mean Huber loss, half the ridge weight times the sum of squares and the lasso weight times the sum of absolute values, written out |
| SolverInFull.ReturnedInFull | src/skhy_research/application/h1_continuous_ofi_proxy.py:571-606 | What the returned point's bounds are, written out: no worse than the start, and steps times lead over any point at most half the squared distance to it, up to delta * 1e-12 times the mean absolute row sum |
| SolverInFull.SnappedInFull | src/skhy_research/application/h1_continuous_ofi_proxy.py:605 | The clean-up turns exactly the coefficients of at most 1e-12 in absolute value into zero |
| ProximalSolver.HuberLipschitz | src/skhy_research/application/h1_continuous_ofi_proxy.py:609-615 | Moving a residual by at most d raises its Huber loss by at most delta*d |
| StableSort.SortSorts | src/skhy_research/domain/simulation_event.py:54-55 | The stable sort returns a sorted permutation |
| StableSort.SortStable | src/skhy_research/domain/simulation_event.py:54-55 | Elements with tied keys keep their order |
| StableSort.OrderIndependentIff | src/skhy_research/domain/simulation_event.py:54-55 | All permutations of an input sort alike if and only if tied elements are equal |
| SimulationEvents.EventOrderIsTotal | src/skhy_research/domain/simulation_event.py:43-51 | The six-part key gives a total preorder on events |
| SimulationEvents.SortDeterminism | src/skhy_research/domain/simulation_event.py:43-55 | Every permutation of the events sorts to the same sequence exactly when equal keys mean equal events; distinct ids suffice |
| SimulationEvents.SortedByTime | src/skhy_research/domain/simulation_event.py:54-55 | Sorting permutes the events and orders their available times |
| SimulationEvents.SimulationClock.AdvanceTo | src/skhy_research/engine/clock.py:18-23 | The clock moves to the given time, or refuses and stays when that is in the past |
| EngineInFull.SortedInFull | src/skhy_research/domain/simulation_event.py:43-55 | Of two events of a run the earlier one comes first by available time, then event time, then sequence number, then venue and type in their named orders, then id |
| EngineInFull.IdsCompare | src/skhy_research/domain/simulation_event.py:50 | Ids compare character by character, and a proper prefix comes first |
| Portfolio.PortfolioLedger.ApplyFill | src/skhy_research/engine/portfolio.py:16-45 | The mutating ledger step equals the specification step on cash, positions, average cost and realised profit |
| Portfolio.FillDefect | src/skhy_research/engine/portfolio.py:23-45 | One fill changes cash + cost basis - realised by exactly 0, or by (prior average - price) * new quantity when the guard at line 38 misses a reversal |
| Portfolio.AccountingIdentity | src/skhy_research/engine/portfolio.py:16-45 | Over any sequence of single-currency fills from empty, cash + cost basis - realised equals the sum of those error terms |
| Portfolio.IdentityIffNoStaleReversal | src/skhy_research/engine/portfolio.py:28-45 | The identity holds at every prefix if and only if every missed reversal happens at the old average price |
| Portfolio.StaleReversalBreaksIdentity | src/skhy_research/engine/portfolio.py:38-40 | Buying 10 at 100 and selling 15 at 90 breaks the identity by -50 |
| Portfolio.EquityIdentity | src/skhy_research/engine/portfolio.py:16-57 | With marks for all open positions, cash + market value = realised + unrealised + the error terms |
| Portfolio.PortfolioLedger.UnrealizedPnl | src/skhy_research/engine/portfolio.py:47-57 | The loop computes the sum of (mark - average) * quantity over open, marked positions |
| LedgerInFull.FillMoves | src/skhy_research/engine/portfolio.py:19-45 | A buy takes its notional from the cash and adds to the position, a sale the reverse |
| LedgerInFull.OthersStay | src/skhy_research/engine/portfolio.py:16-45 | Cash in other currencies and positions and averages of other instruments stay |
| LedgerInFull.Adding | src/skhy_research/engine/portfolio.py:28-33 | Opening or adding books nothing, and the new average times the new position is the sum of both parts' cost |
| LedgerInFull.AverageBetween | src/skhy_research/engine/portfolio.py:28-33 | So the average stays between the prices paid |
| LedgerInFull.PartialClose | src/skhy_research/engine/portfolio.py:34-45 | A partial close leaves the average and books (price - average) times the closed quantity, reversed for a short position |
| LedgerInFull.FullClose | src/skhy_research/engine/portfolio.py:34-45 | A full close books that for the whole position and forgets its cost |
| LedgerInFull.Reversal | src/skhy_research/engine/portfolio.py:34-45 | A reversal books that for the old position; the new one is at the fill's price exactly if it is larger than the old one, and else at the old average |
| Backtest.TryFillLeg | src/skhy_research/engine/fill_model.py:34-85 | The mutating fill step equals the specification: no fill leaves the state, a fill decrements the remainder and is appended |
| Backtest.RunBacktest | src/skhy_research/engine/backtest.py:45-98 | The engine's fills, ledger and journal equal the fold of the specification over the sorted events; the clock never rewinds |
| Backtest.ProcessEvent | src/skhy_research/engine/backtest.py:69-91 | One event moves all order states, the fill list and the ledger as the specification step does |
| EngineInFull.OfferInFull | src/skhy_research/engine/fill_model.py:42-85 | A quote in the order's window offers a buyer its ask size and a seller its bid size, times the participation rate, within the limit; every other event offers nothing |
| EngineInFull.FillsInFull | src/skhy_research/engine/backtest.py:56-91 | Every fill of a run belongs to one event and one order, which it meets in instrument, window, price and size, and the fills are numbered in that order of events and orders |
| EngineInFull.JournalInFull | src/skhy_research/engine/backtest.py:69-71 | The journal names every event, in order |
| EngineInFull.BookedInFull | src/skhy_research/engine/backtest.py:76-91 | The ledger's fills are the run's, one for one, on the instrument and side of the order that the fill names |
| OrderProjection.JointRunProjects | src/skhy_research/engine/backtest.py:56-91 | With distinct order ids, order i's remainder and fills in the joint run are those of its solo run, up to fill ids |
| OrderProjection.FillBounds | src/skhy_research/engine/fill_model.py:42-85 | In a solo run filled + remaining equals the requested quantity; the filled total is exactly the smaller of that quantity and what the admissible quotes offered, each size times participation; and the fills come from strictly later and later events of their own, in the window, no worse than the limit and within participation of that quote |
| OrderProjection.JointFillBounds | src/skhy_research/engine/fill_model.py:42-85 | The same for every order of a joint run, whatever runs beside it |
| OrderProjection.PermutationDeterminism | src/skhy_research/engine/backtest.py:51-91 | Permuting events with distinct ids changes neither fills nor ledger nor journal |
| OrderProjection.PositionConservation | src/skhy_research/engine/backtest.py:76-91 | At the end the ledger's position in each instrument is the signed sum of the fills of the orders on it, the fill count is the sum of theirs, and with all quotes in one currency the cash is what those fills earned and cost |
| OrderProjection.EngineIdentity | src/skhy_research/engine/backtest.py:56-91 | Over a whole engine run in one currency, cash + cost basis = realised profit + the error of the missed reversals among exactly the run's fills, each with its quantity and price and the instrument and side of the order that holds it |
| TradeReplay.OwnQuoteOnly | src/skhy_research/application/h1_daily_proxy_walk_forward.py:609-660 | Of all events of a fold an order's window admits exactly its own open or close quote |
| TradeReplay.SoloOfReplay | src/skhy_research/application/h1_daily_proxy_walk_forward.py:609-660 | Each entry and exit order gets exactly one fill, at its own quote's price, of min(quantity, max(volume, 1)) |
| TradeReplay.ReplayEndsFlat | src/skhy_research/application/h1_daily_proxy_walk_forward.py:525-534 | The replay of n candidates yields 2n fills, leaves the ledger flat, and its cash is the sum of what the trades earned |
| TradeReplay.ExecuteFold | src/skhy_research/application/h1_daily_proxy_walk_forward.py:523-548 | The missing-fill error is never reached, there are 2n fills and n trades with gross profit +-(close - open) * quantity, the ledger ends flat and its cash is the sum of what the trades earned |
| TradeReplay.ReportedIffCovered | src/skhy_research/application/h1_daily_proxy_walk_forward.py:544-548 | The reported gross profit is the one the executions earned exactly when max(volume, 1) covers the order or the price stood still |
| TradeReplay.ShortVolumeOverstates | src/skhy_research/application/h1_daily_proxy_walk_forward.py:544-548 | Ten ordered on a day with volume three, open 100 and close 110: the fold reports 100 and its ledger holds 30 |
| TradeReplay.BuildCandidates | src/skhy_research/application/h1_daily_proxy_walk_forward.py:427-510 | The loop builds the specified candidates and feature dates, or fails exactly when the judgement of a basis day fails; ReplayInFull.CandidatesInFull and BreaksInFull say which bars are judged and what comes of them |
| TradeReplay.BuiltIsReady | src/skhy_research/application/h1_daily_proxy_walk_forward.py:447-503 | Candidates come from rising bar indices, one for every basis day with a direction and no other, and their replay times keep the windows of a fold apart |
| TradeReplay.CandidatesNeverLookAhead | src/skhy_research/application/h1_daily_proxy_walk_forward.py:447-509 | Candidates, feature dates and failures are settled by the bars up to their own day, and of that day's bar only date and prices to trade at are used (ReplayInFull.BasisDayDecides); another replay base, which the source takes from all stored records, only moves the replay times |
| TradeReplay.MoreBarsOnlyAdd | src/skhy_research/application/h1_daily_proxy_walk_forward.py:447-509 | After a build that did not fail, the build on more stored days fails if and only if a new basis day breaks; otherwise the earlier candidates, with their replay times moved by the change of base, and the earlier dates come first |
| TradeReplay.SelectionIsReady | src/skhy_research/application/h1_daily_proxy_walk_forward.py:523-528 | Any selection of the candidates without repetition is again a fold the replay theorems apply to |
| ReplayInFull.BreaksInFull | src/skhy_research/application/h1_daily_proxy_walk_forward.py:447-509 | The build fails if and only if the judgement of bars k - 19 to k fails for some basis day k before the last bar |
| ReplayInFull.CandidatesInFull | src/skhy_research/application/h1_daily_proxy_walk_forward.py:447-509 | Otherwise a basis day k gives a candidate if and only if bars k - 19 to k are judged to have a direction: that direction, the date and bar of day k + 1, and replay time base + 100 (k + 1) |
| ReplayInFull.BasisDayDecides | src/skhy_research/application/h1_daily_proxy_walk_forward.py:447-509 | Two histories that agree on bars k - 19 to k give a candidate on day k in both or in neither and in the same direction, whatever the traded bar k + 1 and all other bars are |
| ReplayInFull.BasisDayBreaks | src/skhy_research/application/h1_daily_proxy_walk_forward.py:447-509 | And if no other day breaks either build, day k breaks both or neither |
| ReplayInFull.FeatureDatesInFull | src/skhy_research/application/h1_daily_proxy_walk_forward.py:447-509 | The feature dates are those of the days after the basis days that were judged, in order |
| ReplayInFull.OrdersInFull | src/skhy_research/application/h1_daily_proxy_walk_forward.py:609-647 | Windows, sides, limits and quantity of the two orders of a trade |
| ReplayInFull.QuotesInFull | src/skhy_research/application/h1_daily_proxy_walk_forward.py:634-660 | The two quotes of a trade show one price for the day's volume, or one, at their own times |
| ReplayInFull.ProfitInFull | src/skhy_research/application/h1_daily_proxy_walk_forward.py:544-548 | What a fold reports is (close - open) times the quantity, and what its ledger earns is that times the part that the volume fills, both reversed for a short trade |
| RawRecorder.StepKeepsInvariant | src/skhy_research/adapters/persistence/raw_recorder.py:67-134 | Every step of every writer keeps the invariant on disk, catalog and all writers and changes no row: failing mkdir, open, write, transaction and unlink, lost commit acknowledgements and crashes included |
| RawRecorder.RunIsSafe | src/skhy_research/adapters/persistence/raw_recorder.py:91-125 | At every point of every interleaved run a row's file is complete with the row's checksum exactly if its writer did not unlink it after a lost commit acknowledgement; so all rows have their files if and only if that has happened to none, only then can the corruption error be raised, and each returned call holds the canonical row with neither flag (winner) or exactly one, decided by checksum equality |
| RawRecorder.RowsNeverChange | src/skhy_research/adapters/persistence/raw_recorder.py:136-162 | A row, once written, is the same at every later point of the run |
| RawRecorder.RowsHaveWriters | src/skhy_research/adapters/persistence/raw_recorder.py:75-95 | Every row is an initial one or the candidate of a call with that key |
| RawRecorder.OneWinnerPerKey | src/skhy_research/adapters/persistence/raw_recorder.py:95-125 | Two calls with one key never both win, and they return the same row |
| RawRecorder.NoCrashLeavesNoOrphan | src/skhy_research/adapters/persistence/raw_recorder.py:107-115 | If all writers finish, none crashes and no unlink fails, the files on disk are exactly those orphaned before and those of the rows not broken by a lost commit |
| RawRecorder.SharedPathLosesFile | src/skhy_research/adapters/persistence/raw_recorder.py:127-134 | Two calls that drew the same path: a run in which a row loses its file |
| RawRecorder.SoundIffPathsDiffer | src/skhy_research/adapters/persistence/raw_recorder.py:73-74 | From an empty store it holds that in every run all rows have their files exactly if no commit was lost, if and only if the paths drawn by calls that can write are pairwise different |
| RawRecorder.LostCommitLosesFile | src/skhy_research/adapters/persistence/raw_recorder.py:91-109 | One writer alone, its commit acknowledgement lost: a run in which the committed row loses its file |
| RawRecorder.RawRecorderStore.Store | src/skhy_research/adapters/persistence/raw_recorder.py:56-125 | One call alone is a run of the protocol, with its exact final disk, catalog and outcome under every combination of failing steps |
| RawRecorder.RawRecorderStore.WritePayloadFile | src/skhy_research/adapters/persistence/raw_recorder.py:127-134 | Exclusive creation never overwrites; a failing open or write unlinks the path, and if that fails too the file stays |
| RawRecorder.RawRecorderStore.InsertCandidate | src/skhy_research/adapters/persistence/raw_recorder.py:94-106 | The row is inserted if the key is free, otherwise the existing row is found; the transaction can fail without its effect or after it |
| RecorderInFull.RecordStays | src/skhy_research/adapters/persistence/raw_recorder.py:67-125 | In every interleaved run a call that returned with neither flag has a row of what it was given, and its file holds its payload, at every later point |
| RecorderInFull.CorruptInFull | src/skhy_research/adapters/persistence/raw_recorder.py:107-125 | A call fails on a corrupt store only if a call with its key lost the acknowledgement of its commit and unlinked the file |
| RecorderInFull.FoundStays | src/skhy_research/adapters/persistence/raw_recorder.py:107-125 | A call that returned with a flag left no file, its row is another call's, and it is a duplicate if the checksums are equal and else a conflict; the row's file holds a payload with the row's checksum unless its writer lost a commit and took it away |
| OfiFeatures.FiltersPassIffClean | src/skhy_research/features/h1_close_pressure/continuous_ofi.py:332-469 | The filters return no reason if and only if the input is clean, a condition stated without the filters' order |
| OfiFeatures.ComputableIff | src/skhy_research/features/h1_close_pressure/continuous_ofi.py:244-329 | A result is COMPUTABLE exactly for clean inputs with positive mean depth and positive depth at the last quote; the program notional never raises on a clean input |
| FiltersInFull.SettingCodes | src/skhy_research/features/h1_close_pressure/continuous_ofi.py:334-345 | When the codes of tick size, average turnover, structural inputs and late availability are among the reasons, in terms of the inputs |
| FiltersInFull.CaptureCodes | src/skhy_research/features/h1_close_pressure/continuous_ofi.py:347-365 | When each code of the capture report is among the reasons |
| FiltersInFull.TimeCodes | src/skhy_research/features/h1_close_pressure/continuous_ofi.py:391-461 | A missing time hides all later event checks; otherwise the codes of order and of staleness hold exactly when two events are out of order or the last eligible one is older than two seconds |
| FiltersInFull.BookCodes | src/skhy_research/features/h1_close_pressure/continuous_ofi.py:426-444 | Of the three book codes at most the one of the first bad book up to the cutoff is given: incomplete, then crossed or locked, then empty |
| FiltersInFull.WindowCodes | src/skhy_research/features/h1_close_pressure/continuous_ofi.py:334-420 | When the window is not covered, and when its only snapshot came after the cutoff |
| FiltersInFull.ProgramCodes | src/skhy_research/features/h1_close_pressure/continuous_ofi.py:446-468 | When the program's source, amounts and semantics are refused |
| FiltersInFull.FirstFoundFirst | src/skhy_research/features/h1_close_pressure/continuous_ofi.py:386 | The reasons come in the order in which they are first found |
| FiltersInFull.LineageMembers | src/skhy_research/features/h1_close_pressure/continuous_ofi.py:472-491 | The lineage holds exactly the ids of the eligible events, and that of the average turnover if it was known by the cutoff |
| OfiFeatures.Compute | src/skhy_research/features/h1_close_pressure/continuous_ofi.py:244-329 | The loops over active events compute the specification over all eligible events, whose every number the next rows state on the inputs; no inner raise and no empty maximum is reached |
| FeaturesInFull.OfiInFull | src/skhy_research/features/h1_close_pressure/continuous_ofi.py:264-269 | The order flow is the sum of the flows between neighbouring quotes, from the last one no later than the window's start to the last one no later than its end |
| FeaturesInFull.MeanDepthInFull | src/skhy_research/features/h1_close_pressure/continuous_ofi.py:271-287 | The mean depth is the mean of both best sizes over 600 seconds, weighted by how long each quote stood in the window |
| FeaturesInFull.DepthInFull | src/skhy_research/features/h1_close_pressure/continuous_ofi.py:271-291 | The depth feature is the mean of the imbalances of the ten levels, weighted alike |
| FeaturesInFull.MicroInFull | src/skhy_research/features/h1_close_pressure/continuous_ofi.py:292-299 | The micro-price deviation times the tick is half the last quote's spread times its size imbalance |
| FeaturesInFull.CumulativeNet | src/skhy_research/features/h1_close_pressure/continuous_ofi.py:221-234 | With cumulative values the program net is the last value no later than the end less the last one no later than the start |
| FeaturesInFull.IncrementalNet | src/skhy_research/features/h1_close_pressure/continuous_ofi.py:235-241 | With increments it is the sum of those from the start to the end, both included |
| FeaturesInFull.ReadingsAgreeIff | src/skhy_research/features/h1_close_pressure/continuous_ofi.py:221-241 | If the cumulative values are the running sums of the increments, both readings give the same net if and only if no event at exactly the start has a nonzero amount |
| FeaturesInFull.ScaledInFull | src/skhy_research/features/h1_close_pressure/continuous_ofi.py:287-312 | x_ofi times the mean depth is the order flow, x_program times the average turnover is the program net, and the conflict flag is 1 if the two have opposite signs and else 0 |
| FeaturesInFull.NotComputableInFull | src/skhy_research/features/h1_close_pressure/continuous_ofi.py:288-296 | A clean input without a result has the one reason BEST_DEPTH_ZERO |
| FeaturesInFull.WindowExists | src/skhy_research/features/h1_close_pressure/continuous_ofi.py:254-264 | A clean input has such a window: the baseline and the last quote that these sums speak of |
| OfiFeatures.OfiIncrement | src/skhy_research/features/h1_close_pressure/continuous_ofi.py:180-198 | The branches add up to the increment of two complete books, which OfiFeatures.IncrementMeans and OfiFeatures.OfiWhilePricesStand explain |
| OfiFeatures.IncrementMeans | src/skhy_research/features/h1_close_pressure/continuous_ofi.py:180-198 | At equal best prices the increment is the change of bid size less ask size; the reverse move has the opposite increment; and it is bounded by the sizes a move can bring or take |
| OfiFeatures.OfiWhilePricesStand | src/skhy_research/features/h1_close_pressure/continuous_ofi.py:264-269 | While the best prices stand, the window's order flow is the change of size from the baseline to the last book |
| OfiFeatures.HardFilterReasons | src/skhy_research/features/h1_close_pressure/continuous_ofi.py:332-469 | The collected reasons, first occurrences in order |
| OfiFeatures.CollectLineage | src/skhy_research/features/h1_close_pressure/continuous_ofi.py:472-491 | The eligible record ids, each once, in order |
| OfiFeatures.SpansPartition | src/skhy_research/features/h1_close_pressure/continuous_ofi.py:273-283 | The standing times of the books partition the window exactly |
| OfiFeatures.DurationsFillWindow | src/skhy_research/features/h1_close_pressure/continuous_ofi.py:273-287 | Once the filters pass, the durations sum to 600 seconds |
| OfiFeatures.MeanDepthBetween | src/skhy_research/features/h1_close_pressure/continuous_ofi.py:284-287 | The mean best depth lies between any bounds on the best depths of the books standing in the window |
| OfiFeatures.DepthWithinOne | src/skhy_research/features/h1_close_pressure/continuous_ofi.py:285-291 | The depth feature is in [-1, 1] |
| OfiFeatures.MicroBounded | src/skhy_research/features/h1_close_pressure/continuous_ofi.py:292-299 | the absolute x_micro * tick is at most half the last quote's spread |
| OfiFeatures.ProgramNeverRaises | src/skhy_research/features/h1_close_pressure/continuous_ofi.py:201-241 | On a clean input the program notional does not raise |
| OfiFeatures.StutterKeepsOfi | src/skhy_research/features/h1_close_pressure/continuous_ofi.py:264-269 | Repeating a book leaves the order-flow sum unchanged: the increments telescope |
| OfiFeatures.StutterKeepsIntegral | src/skhy_research/features/h1_close_pressure/continuous_ofi.py:271-285 | Repeating a book leaves every time-weighted sum unchanged: the weights split |
| OfiFeatures.StutterInvariance | src/skhy_research/features/h1_close_pressure/continuous_ofi.py:244-329 | On a clean input, inserting a quote that repeats the book before it, strictly between its neighbours and not after the cutoff, leaves the verdict and the whole vector unchanged |
| OfiFeatures.AppendUnchangedIff | src/skhy_research/features/h1_close_pressure/continuous_ofi.py:389-418 | Appending later events after the cutoff leaves the result identical, unless it makes a missing baseline read as a late snapshot; exactly then it changes |
| OfiFeatures.LateQuoteShows | src/skhy_research/features/h1_close_pressure/continuous_ofi.py:389-418 | An input without quotes and one quote a nanosecond after the cutoff: SNAPSHOT_AFTER_151000 is added and the result changes |
| OfiFeatures.CleanIgnoresLater | src/skhy_research/features/h1_close_pressure/continuous_ofi.py:254-329 | A clean input's result never depends on anything after the cutoff |
| RiskEngine.ApplyKillSwitches | src/skhy_research/risk/engine.py:75-161 | The reason list holds exactly the causes that are present, each once; the code lemmas of RiskInFull say of each cause what it means for the inputs |
| RiskEngine.Evaluate | src/skhy_research/risk/engine.py:40-73 | The decision satisfies every validator; if it is not BLOCK, every leg's market is open, its quote not from the future and within the strategy's age limit, its borrowing in place, and both losses are below their fractions; with a kill switch on it is BLOCK with exactly the causes; otherwise every leg lookup succeeds and verdict, reasons, totals and the snapshot's requested, available and approved quantities and stop risks are those sizing prescribes |
| RiskInFull.OperationCodes | src/skhy_research/risk/engine.py:49-110 | When the codes of expiry, equity, providers, clock, cost and repeated leg ids are causes, in terms of the order and its context |
| RiskInFull.LossCodes | src/skhy_research/risk/engine.py:95-107 | The day's loss reaches its fraction of equity, or the drawdown its fraction of the high-water mark |
| RiskInFull.ApprovalCodes | src/skhy_research/risk/engine.py:111-128 | When versions, conversion and hedging are causes; a leg unhedged for the timeout in seconds or longer blocks |
| RiskInFull.MarketCodes | src/skhy_research/risk/engine.py:20-26 | Each of the five blocking market states gives its own code and no other state gives it |
| RiskInFull.QuoteCodes | src/skhy_research/risk/engine.py:141-149 | A quote is missing, from the future, or older than the strategy's limit in seconds |
| RiskInFull.StateCodes | src/skhy_research/risk/engine.py:133-160 | When a leg's state, stop, liquidity or borrowing is a cause |
| RiskEngine.SizeOrder | src/skhy_research/risk/engine.py:163-271 | The sizing decision: verdict, reasons in their order, totals, and the snapshot's entries per leg and per cap |
| RiskInFull.ScaleInFull | src/skhy_research/risk/engine.py:189-217 | A number in [0, 1] is at most the scale if and only if at it the order's stop risk fits both caps and every leg its available quantity |
| RiskInFull.LotsInFull | src/skhy_research/risk/engine.py:219-228 | Each leg is approved for the largest whole number of lots within its scaled quantity |
| RiskInFull.VerdictInFull | src/skhy_research/risk/engine.py:173-271 | An order that no switch blocks is BLOCK if nothing is asked for, there is no budget, or a leg that is asked for gets nothing; ALLOW if every leg gets all; and REDUCE otherwise |
| RiskInFull.EarlyCodes | src/skhy_research/risk/engine.py:173-187 | The reason of an order that asks for nothing, and of one without a budget |
| RiskInFull.CapCodes | src/skhy_research/risk/engine.py:203-209 | The two cap codes are given exactly when the requested stop risk exceeds the cap |
| RiskInFull.LiquidityCode | src/skhy_research/risk/engine.py:211-217 | The liquidity code is given exactly when some leg asks for more than is available |
| RiskInFull.RoundingCode | src/skhy_research/risk/engine.py:219-228 | The rounding code is given exactly when some leg gets less than its scaled quantity |
| RiskInFull.NothingLeftCode | src/skhy_research/risk/engine.py:239-252 | NO_EXECUTABLE_QUANTITY is given exactly when some leg that is asked for gets nothing |
| RiskInFull.ApprovedRiskInFull | src/skhy_research/risk/engine.py:230-262 | The snapshot's approved stop risk and the decision's approved total are the sums over the approved legs |
| RiskInFull.SnapshotInFull | src/skhy_research/risk/engine.py:196-226 | The snapshot's caps, stop risk and quantities in terms of the order and its context |
| RiskEngine.RequestedByLeg | src/skhy_research/risk/engine.py:43-50 | The dictionary keeps the last quantity of a repeated id, and is shorter than the leg list exactly when an id repeats |
| RiskEngine.ScaleIsLargest | src/skhy_research/risk/engine.py:203-217 | The scale is the largest number in [0, 1] at which both risk caps and every leg's liquidity accept the order |
| RiskEngine.ApprovedBounds | src/skhy_research/risk/engine.py:219-228 | Every approved leg is whole lots, at most its scaled, requested and available quantity, and less than one lot below its scaled quantity |
| RiskEngine.ApprovedRiskWithinCaps | src/skhy_research/risk/engine.py:189-238 | The approved stop risk is at most min(order budget, equity * fraction) |
| RiskEngine.NothingDropped | src/skhy_research/risk/engine.py:239-242 | The outcome is not BLOCK if and only if something is requested, there is a budget and no requested leg's share falls below one lot; then exactly the requested legs get a positive quantity |
| RiskEngine.AllowIffUntouched | src/skhy_research/risk/engine.py:253-271 | ALLOW if and only if no cap bites and every requested quantity is a whole number of lots |
| RiskEngine.UnallowedHasCause | src/skhy_research/domain/risk.py:31-35 | A sized order that is not allowed whole has at least one reason |
| RiskEngine.RoomierNeverTightens | src/skhy_research/risk/engine.py:189-271 | A larger budget, cap or liquidity shrinks no approved leg and moves no verdict towards BLOCK |
| RiskEngine.MoreRoomNeverTightens | src/skhy_research/risk/engine.py:40-271 | The same for two whole evaluations, kill switches included, under more equity, budget or liquidity |
| Lineage.TraceLineage | src/skhy_research/adapters/persistence/manifest_store.py:100-120 | The search ends on every table, cyclic ones included, and returns each edge of the run whose child is the start or an ancestor as often as the table holds it, and no other |
| Lineage.OnceEach | src/skhy_research/adapters/persistence/manifest_store.py:100-120 | With distinct edge ids that is exactly once each |
| Lineage.ClosedHoldsAncestors | src/skhy_research/adapters/persistence/manifest_store.py:105-119 | A visited set closed under parents holds every ancestor |
| ValidationHarness.BlocksTile | src/skhy_research/application/h1_continuous_ofi_proxy.py:1436-1452 | The walk-forward blocks tile [120, cursor), with sizes from 20 to the configured size, all but the last full; the walk stops only for lack of days or a failed fit |
| ValidationHarness.FittedOnThePast | src/skhy_research/application/h1_continuous_ofi_proxy.py:1438-1450 | Every walk-forward outcome is scored by a model fitted on the days before its own block |
| ValidationHarness.NoLookAhead | src/skhy_research/application/h1_continuous_ofi_proxy.py:1438-1452 | If two histories of any lengths agree on their first k days, every day of a block ending by k is scored in both and has the same outcome |
| ValidationHarness.ScoredAlike | src/skhy_research/application/h1_continuous_ofi_proxy.py:1436-1452 | The same already holds for every day before k of a block that has its first twenty days before k |
| ValidationHarness.HistoryOnlyGrows | src/skhy_research/application/h1_continuous_ofi_proxy.py:1438-1452 | Collecting further days leaves the earlier walk-forward outcomes as a prefix of the new ones |
| ValidationHarness.EarlyStagesSettled | src/skhy_research/application/h1_continuous_ofi_proxy.py:1347-1406 | The training and cheap-reject verdicts are settled by the first ninety days |
| ValidationHarness.SealedTestUsesTraining | src/skhy_research/application/h1_continuous_ofi_proxy.py:1349-1426 | Each sealed-test outcome, of the full and of the baseline model, uses the fit on the first sixty days, so it is the same in any other completed run on those training days |
| ValidationHarness.SealedTestSettled | src/skhy_research/application/h1_continuous_ofi_proxy.py:1423-1432 | The sealed-test outcomes depend on the first 120 days only |
| ValidationHarness.ReportedOutcomesStand | src/skhy_research/application/h1_continuous_ofi_proxy.py:1339-1452 | After a completed run, days with later dates are collected: the next run completes, with every outcome reported so far as it was, if and only if the new days are live and their dates distinct; otherwise it is HOLD |
| ValidationHarness.ArrivalOrderIrrelevant | src/skhy_research/application/h1_continuous_ofi_proxy.py:1339-1341 | The report does not depend on the order in which the observations arrive |
| ValidationHarness.WalkForward | src/skhy_research/application/h1_continuous_ofi_proxy.py:1434-1452 | The loop computes the specified outcomes, block count and cursor |
| ValidationHarness.RunValidation | src/skhy_research/application/h1_continuous_ofi_proxy.py:1335-1452 | The staged run equals the specified report, fail-closed stage by stage; the next rows say on which days each stage is fitted and scored |
| HarnessInFull.HeldInFull | src/skhy_research/application/h1_continuous_ofi_proxy.py:1337-1343 | The run is held by the source gate, then by a repeated date, then by a day that is not live |
| HarnessInFull.FitInFull | src/skhy_research/application/h1_continuous_ofi_proxy.py:1344-1358 | Fewer than ninety days hold the run; it is not computable exactly when a fit on days 0 to 59 fails |
| HarnessInFull.GateInFull | src/skhy_research/application/h1_continuous_ofi_proxy.py:1347-1422 | The gate is fed the full model's profit less the baseline's on days 60 to 89, both fitted on days 0 to 59: it rejects, with these thirty numbers, exactly when it does not pass them; otherwise the sealed test is missing or the run completes, by whether there are 120 days |
| HarnessInFull.SealedInFull | src/skhy_research/application/h1_continuous_ofi_proxy.py:1423-1428 | The sealed outcomes are those of days 90 to 119 under both models of days 0 to 59 |
| HarnessInFull.WalkLengthInFull | src/skhy_research/application/h1_continuous_ofi_proxy.py:1436-1452 | How many blocks a walk has and where it ends |
| HarnessInFull.WalkDayInFull | src/skhy_research/application/h1_continuous_ofi_proxy.py:1438-1452 | Day r of block b is scored by the model fitted on all days before that block |
| HarnessInFull.WalkInFull | src/skhy_research/application/h1_continuous_ofi_proxy.py:1434-1452 | The walk of a completed run starts on day 120, and blocks, cursor and outcomes of its report are those |
| InnerFolds.ScoreCandidate | src/skhy_research/application/h1_continuous_ofi_proxy.py:394-419 | The fold loop computes the fold losses, or none when a fold fails |
| InnerFolds.FoldAt | src/skhy_research/application/h1_continuous_ofi_proxy.py:397-417 | Fold i trains on everything before its ten days and is scored on them |
| InnerFolds.FoldCount | src/skhy_research/application/h1_continuous_ofi_proxy.py:396-417 | There are (n - 20) / 10 folds |
| InnerFolds.FoldsNeverLookAhead | src/skhy_research/application/h1_continuous_ofi_proxy.py:396-417 | If samples agree with scored ones on the first k days, there is no score at all if and only if a fold that ends after day k fails; otherwise every fold ending by day k has the loss it had |
| InnerFolds.FoldSettled | src/skhy_research/application/h1_continuous_ofi_proxy.py:397-413 | One fold by itself: its loss, or its failure, is settled by the days up to its end, whatever follows |
| InnerFolds.ScoredIff | src/skhy_research/application/h1_continuous_ofi_proxy.py:396-419 | A candidate is scored if and only if there are thirty days and no fold fails |
| InnerFolds.MoreSamples | src/skhy_research/application/h1_continuous_ofi_proxy.py:396-419 | After a scored sample more days are collected: the candidate loses its score if and only if a new fold fails, and otherwise the losses so far are a prefix |
| InnerFolds.OneStandardErrorSelection | src/skhy_research/application/h1_continuous_ofi_proxy.py:432-445 | The choice is never empty, and the selected score is the first of the sparsest within one standard error of the first of the best |
| InnerFolds.SparsestMeans | src/skhy_research/application/h1_continuous_ofi_proxy.py:434-445 | Such a score is within that error, and none that is within it comes before it in the rule's order |
| FoldsInFull.ScoredInFull | src/skhy_research/application/h1_continuous_ofi_proxy.py:394-419 | A candidate is scored if and only if there are thirty samples and, for every i with 30 + 10 i samples, the fit on the first 20 + 10 i and its loss on the next ten succeed |
| FoldsInFull.LossesInFull | src/skhy_research/application/h1_continuous_ofi_proxy.py:396-417 | And its losses are those |
| FoldsInFull.SelectionInFull | src/skhy_research/application/h1_continuous_ofi_proxy.py:432-445 | The choice is within the standard error, and 1e-15, of the first least loss, nothing within it is sparser in lambda, nonzero count, rho, delta and loss, and everything within it that comes before is less sparse |
| Drawdown.MaxDrawdown | src/skhy_research/experiments/statistics.py:50-60 | The one-pass result is the maximum of P(i) - P(j) over all i <= j |
| Drawdown.CapitalDrawdown | src/skhy_research/application/h1_continuous_ofi_proxy.py:1534-1544 | The loop over equity finds that same maximum for any starting capital |
| Drawdown.DrawdownsAgree | src/skhy_research/application/h1_continuous_ofi_proxy.py:1534-1544 | The two loops agree |
| Drawdown.TopShareIsBest | src/skhy_research/experiments/statistics.py:63-69 | No choice of at most n positive days adds up to more than the top n |
| Drawdown.TopIsChoice | src/skhy_research/experiments/statistics.py:63-69 | The top n are such a choice |
| Drawdown.ShareInRange | src/skhy_research/experiments/statistics.py:63-69 | The share lies in [0, 1] and does not fall with n |
| Drawdown.TopShareIs | src/skhy_research/experiments/statistics.py:63-69 | The share times the sum of the positive days is the sum of the top n, and without a positive day it is 0 |
| KrxPrefetch.KrxProvider.GetDailyRecords | src/skhy_research/adapters/providers/krx/historical_data_provider.py:183-212 | A cached date costs no request, otherwise at most one more than the allowed retries, all for that date: on success rate limits and then one answer with records; a retry starts after the wait that KrxInFull.RetriesInFull states; success caches exactly that date with rows the client sent and the observer's receipt time, or else the local one; an error changes no cache entry, and the fall-through assertion is unreachable |
| KrxPrefetch.KrxProvider.WaitForRequestSlot | src/skhy_research/adapters/providers/krx/historical_data_provider.py:214-220 | The request may start at the later of now and the interval after the last answered one |
| KrxPrefetch.PacedAfterAnswers | src/skhy_research/adapters/providers/krx/historical_data_provider.py:183-220 | No request starts less than the interval after an answered one, however long before |
| KrxPrefetch.KrxProvider.UndercutIff | src/skhy_research/adapters/providers/krx/historical_data_provider.py:187-220 | The next request undercuts the interval if and only if the latest one failed in another way than by the rate limit and the caller is back before the interval has passed |
| KrxPrefetch.FailureUndercuts | src/skhy_research/adapters/providers/krx/historical_data_provider.py:187-220 | A client that fails once and then answers: two requests without any pause, for every interval |
| KrxPrefetch.KrxProvider.PrefetchLatest | src/skhy_research/adapters/providers/krx/historical_data_provider.py:142-181 | On success exactly the requested number of trading days, every workday from the first of them to the end is cached and classified once by whether it has records, and the requests are those for the fetched dates that were not cached; too few means the whole lookback holds fewer |
| KrxPrefetch.FetchedOnce | src/skhy_research/adapters/providers/krx/historical_data_provider.py:162-173 | Among the requests of a prefetch each fetched date that was not cached has exactly one answer with records, and no other date has any |
| KrxPrefetch.RequestsBounded | src/skhy_research/adapters/providers/krx/historical_data_provider.py:162-212 | They are at least as many as those dates and at most that number times retries + 1 |
| KrxPrefetch.KrxProvider.GetBars | src/skhy_research/adapters/providers/krx/historical_data_provider.py:98-140 | Over cached workdays no request is made and the bars are those of the cache; the argument errors in their order |
| KrxPrefetch.CalendarMatchesPrefetch | src/skhy_research/application/krx_backfill_runner.py:172-181 | The calendar built from the closed workdays expects exactly the prefetched trading dates |
| KrxPrefetch.ExpectedTradingDays | src/skhy_research/application/trading_day_coverage.py:28-37 | The loop lists the trading days of the range |
| KrxPrefetch.ExpectedMembers | src/skhy_research/application/trading_day_coverage.py:28-37 | They are, in increasing order, exactly the workdays that are no holidays |
| KrxPrefetch.VerifyCoverage | src/skhy_research/application/trading_day_coverage.py:40-50 | The report's counts and missing dates |
| KrxPrefetch.MissingAreRowless | src/skhy_research/application/trading_day_coverage.py:43-45 | If rows carry the date they were asked for, the missing dates are exactly the trading dates without the symbol's row |
| KrxPrefetch.CoverPrefetched | src/skhy_research/application/krx_backfill_runner.py:177-208 | After a prefetch, bars and coverage make no request, their report is that of the cache, and only an unknown instrument or a malformed row can fail |
| KrxPrefetch.Backfill | src/skhy_research/application/krx_backfill_runner.py:172-208 | The whole wiring: all requests of the run are those of one prefetch; then it goes through, with the coverage of every target, if and only if every target is known, well-formed and without a missing trading date |
| KrxPrefetch.CoveredIff | src/skhy_research/application/krx_backfill_runner.py:189-208 | If rows carry the date they were asked for, a known target goes through if and only if its rows are well-formed and every trading date has one |
| KrxInFull.PrefetchInFull | src/skhy_research/adapters/providers/krx/historical_data_provider.py:156-181 | After a prefetch a date is in one of the three lists exactly if it is a workday from the first trading date to the end, and trading or closed by whether its cached response has rows; the lists ascend |
| KrxInFull.ShortfallInFull | src/skhy_research/adapters/providers/krx/historical_data_provider.py:171-176 | Too few trading days means that all workdays of the lookback are cached and fewer of them than asked for have rows |
| KrxInFull.RetriesInFull | src/skhy_research/adapters/providers/krx/historical_data_provider.py:188-198 | A retry starts when the client's wait or interval * 2^attempt, whichever is longer, has passed since the rate limit |
| KrxInFull.BarsInFull | src/skhy_research/adapters/providers/krx/historical_data_provider.py:122-140 | The bars of a cached range are the first row of the symbol on each workday that has one, in order; a malformed one is the only error |
| KrxInFull.MissingInFull | src/skhy_research/application/trading_day_coverage.py:40-50 | The missing dates are exactly the expected ones on which no bar is dated, in order |
| KrxInFull.CoveredInFull | src/skhy_research/application/krx_backfill_runner.py:189-208 | A target goes through exactly when it is known, its bars are well-formed, there are enough trading dates, and each of them is the date of a bar |
| KrxInFull.VerdictInFull | src/skhy_research/application/krx_backfill_runner.py:189-208 | A backfill succeeds if and only if every target goes through, and then no coverage has anything missing |
| FrameCodec.DecodeDataFrame | src/skhy_research/adapters/providers/kis/h1_websocket.py:256-304 | The loop builds the specified packets; of the packet's own checks only the negative receipt time can fail |
| FrameCodec.DecodePrinted | src/skhy_research/adapters/providers/kis/h1_websocket.py:264-304 | Decoding the printed frame of any records with caret-free fields returns those records |
| FrameCodec.DecodedRebuilds | src/skhy_research/adapters/providers/kis/h1_websocket.py:278-289 | Joining the decoded values of an accepted frame rebuilds its payload |
| FrameCodec.RecordFrameDecodes | src/skhy_research/adapters/providers/kis/h1_websocket.py:299 | Each packet's record frame decodes, alone, to that same record |
| FrameCodec.SequencesDiffer | src/skhy_research/adapters/providers/kis/h1_websocket.py:290-292 | Within a frame of several records the suffixed sequences are pairwise different |
| FrameCodec.DecodedPacketsPass | src/skhy_research/adapters/providers/kis/h1_websocket.py:184-196 | The packet check accepts every packet the decoder builds |
| FrameCodec.ParsePrinted | src/skhy_research/adapters/providers/kis/h1_websocket.py:271-276 | A printed record count parses back to itself |
| FramesInFull.ErrorsInFull | src/skhy_research/adapters/providers/kis/h1_websocket.py:264-285 | Which error a frame gives, in terms of its parts, and that any other frame is accepted |
| FramesInFull.PacketsInFull | src/skhy_research/adapters/providers/kis/h1_websocket.py:287-304 | Transaction, values, frames, time and sequence of packet i of an accepted frame |
| FramesInFull.CountsInFull | src/skhy_research/adapters/providers/kis/h1_websocket.py:271-274 | One more digit multiplies the count by ten and adds; single underscores may stand between digits |
| FramesInFull.BlanksAround | src/skhy_research/adapters/providers/kis/h1_websocket.py:271-274 | Blanks around a count do not matter |
| FramesInFull.SignsInFull | src/skhy_research/adapters/providers/kis/h1_websocket.py:271-276 | A sign tells a count from its negative |
| AliasMaster.OverlapIffShared | src/skhy_research/application/instrument_master.py:102-105 | The overlap test holds if and only if some instant is covered by both aliases |
| AliasMaster.InstrumentMaster.RegisterAlias | src/skhy_research/application/instrument_master.py:30-47 | An alias is appended exactly when its instrument is known and it clashes with none; otherwise nothing changes; intervals stay disjoint |
| AliasMaster.InstrumentMaster.Resolve | src/skhy_research/application/instrument_master.py:56-75 | In every reachable master the ambiguity error is unreachable and the answer is a known instrument |
| AliasMaster.NeverAmbiguous | src/skhy_research/application/instrument_master.py:56-75 | Resolution is never ambiguous, and fails exactly when no alias of the symbol covers the instant |
| AliasMaster.ResolvesIffCovered | src/skhy_research/application/instrument_master.py:59-75 | A symbol resolves to an instrument exactly when one of its aliases covers the instant |
| AliasMaster.AllAcceptedIff | src/skhy_research/application/instrument_master.py:30-47 | No registration of a list fails if and only if all instruments are known and no intervals of a symbol meet, in whatever order |
| AliasMaster.ResolutionIgnoresOrder | src/skhy_research/application/instrument_master.py:56-75 | Masters with the same aliases resolve alike |
| AliasMaster.SelectThenSort | src/skhy_research/application/instrument_master.py:93-99 | Selecting what is in force and sorting is sorting everything and selecting |
| AliasMaster.ActionsOnlyAccrue | src/skhy_research/application/instrument_master.py:93-99 | The corporate actions in force earlier are a prefix of those in force later |
| AliasesInFull.ResolvesInFull | src/skhy_research/application/instrument_master.py:56-75 | A symbol resolves to an instrument exactly when an alias of that source, venue and symbol names it and is valid from no later than the instant and until after it |
| AliasesInFull.RefusedInFull | src/skhy_research/application/instrument_master.py:36-47 | An alias clashes exactly when another of that source, venue and symbol is not over when it begins and begins before it is over |
| AliasesInFull.ActionsInFull | src/skhy_research/application/instrument_master.py:93-99 | The actions given are those effective by the instant, each as often as registered, by effective time and then version |
| AliasesInFull.ActionTiesStay | src/skhy_research/application/instrument_master.py:93-99 | Equal ones stay in the order they were registered in |
| StudyRows.BuildPrefalsificationRows | src/skhy_research/application/h1_prefalsification_study.py:986-1012 | The builder refuses unordered or mixed observations and otherwise returns the specified rows, counts and reasons |
| StudyRows.BuildWeakDailyRows | src/skhy_research/application/h1_prefalsification_study.py:1015-1041 | The same for the weak daily variant |
| StudyRows.BuildOneRow | src/skhy_research/application/h1_prefalsification_study.py:1164-1264 | One observation: the row, or the first refusal, counted |
| StudyRows.BuildOneWeakRow | src/skhy_research/application/h1_prefalsification_study.py:1044-1112 | One weak observation: the row, or the first refusal, counted |
| StudyRows.ReadControls | src/skhy_research/application/h1_prefalsification_study.py:1267-1290 | The control values by name, or the first fault, counted |
| StudyRows.StrictConserves | src/skhy_research/application/h1_prefalsification_study.py:997-1012 | Reasons counted plus controlled rows equal max(0, n - 20) |
| StudyRows.WeakConserves | src/skhy_research/application/h1_prefalsification_study.py:1026-1041 | The same for the weak daily variant |
| StudyRows.PrefixCausal | src/skhy_research/application/h1_prefalsification_study.py:999-1005 | Building on a prefix of the observations gives a prefix of the rows, and no reason is taken back |
| StudyRows.PredictorsKnownAtAuction | src/skhy_research/application/h1_prefalsification_study.py:1194-1220 | Everything a row's predictor uses was available when the auction began |
| StudyRows.WeakPredictorsKnownAtOpen | src/skhy_research/application/h1_prefalsification_study.py:1059-1078 | The weak predictor was known at the opening, and its average turnover is positive |
| StudyRows.AdvRefusalUnreachable | src/skhy_research/application/h1_prefalsification_study.py:1246-1249 | The zero-ADV refusal cannot be reached |
| StudyInFull.StrictAcceptedIff | src/skhy_research/application/h1_prefalsification_study.py:1164-1264 | An observation gives a row if and only if units, amounts and times of its inputs are what they should be, each condition written out |
| StudyInFull.StrictRowInFull | src/skhy_research/application/h1_prefalsification_study.py:1246-1264 | Twenty times a row's average turnover is the sum of the twenty turnovers, its predictor times that average is the lagged program amount, and its outcome times it is the auction turnover with the sign of the auction's log return |
| StudyInFull.StrictIdsInFull | src/skhy_research/application/h1_prefalsification_study.py:1293-1314 | A row's ids are those of all its inputs, each once |
| StudyInFull.StrictMissing | src/skhy_research/application/h1_prefalsification_study.py:1170-1179 | The first missing input names the refusal |
| StudyInFull.StrictUnits | src/skhy_research/application/h1_prefalsification_study.py:1180-1205 | Then wrong units do, and then the first turnover that does not count |
| StudyInFull.StrictTimes | src/skhy_research/application/h1_prefalsification_study.py:1206-1245 | Then the times, in the order program, reference, close, auction turnover, and last the amounts |
| StudyInFull.WeakAcceptedIff | src/skhy_research/application/h1_prefalsification_study.py:1044-1112 | When a weak observation gives a row, written out |
| StudyInFull.WeakRowInFull | src/skhy_research/application/h1_prefalsification_study.py:1100-1112 | The numbers of a weak row |
| StudyInFull.WeakIdsInFull | src/skhy_research/application/h1_prefalsification_study.py:1141-1161 | The ids of a weak row, each once |
| StudyInFull.WeakMissingCodes | src/skhy_research/application/h1_prefalsification_study.py:1050-1058 | The first missing input of a weak observation names its refusal |
| StudyInFull.WeakCodes | src/skhy_research/application/h1_prefalsification_study.py:1059-1099 | Then unit and time of the program, the window, and units, times and amounts of the prices |
| StudyInFull.ControlsInFull | src/skhy_research/application/h1_prefalsification_study.py:1267-1290 | There are controls exactly when the three factors and no others have returns settled at the close, and they are those returns |
| StudyInFull.ObservationInFull | src/skhy_research/application/h1_prefalsification_study.py:997-1012 | Observation 20 + i is judged by itself, the one before it and the twenty before it |
| StudyInFull.RowsInFull | src/skhy_research/application/h1_prefalsification_study.py:997-1012 | The rows are those of the observations that give one, in order |
| StudyInFull.ReasonsInFull | src/skhy_research/application/h1_prefalsification_study.py:997-1012 | The reasons are those of the observations that give none, or no controls |

## Left out

- HTTP and WebSocket clients, secrets, command line, configuration, logging and report writing: plumbing without a hard property.
- NumPy and statistics routines (least squares, quantiles, bootstrap, permutation and Newey-West tests) and the construction of the solver's standardised matrix: foreign numerics; the solver takes any matrix.
- Rounding of Decimal and of binary floating point: every quantity is an exact real, so the solver's 1e-8 tolerance and 1e-12 clean-up are exact numbers here.
- SHA-256 and JSON canonicalisation: a hash is an arbitrary function of the payload, so checksum equality, not content equality, decides duplicate or conflict, as in the code.
- SQL and transactions: the insert with its fallback select is one atomic step, which may take effect or not when it raises.
- The recorder's partition path and its UUID are a drawn path; `RawRecorder.SoundIffPathsDiffer` says what drawing equal ones would do.
- Loading the checkpoints and reading records back (`get_meta`, `advance_checkpoint`): single-table look-ups.
- Transaction costs, stressed costs and fold statistics of the daily walk-forward: `TradeReplay.ExecuteFold` stops at the gross profit.
- The journal hash and fill ids as text: a fill id is the pair of seed and number.
- ValidationHarness.RunValidation: the report has the stage's verdict, the sealed and walk-forward outcomes, blocks and cursor; metrics, diagnostics, flags, model hashes and the final gate are threshold checklists and summaries. The source gate is a flag, the cheap-reject gate a function of the validation increments.
- InnerFolds.ScoreCandidate: stops at the fold losses; their mean, their standard error (a square root) and the mean count of nonzero coefficients are parts of the score the selection is given.
- RiskEngine.ApplyKillSwitches: the reasons are stated as a set without repetition, not in their order; the policy constants, ages and loss fractions it copies into the snapshot are left out.
- OfiFeatures.Compute: what a non-finite number outside the books does. A NaN tick size, average turnover, clock error or gap makes the source's comparison raise, and a NaN or infinite program net passes its filters, which test for a missing value only; here those inputs are numbers or missing.
- TradeReplay.BuildCandidates: which errors a basis day can raise (a bar without turnover, a zero close, repeated or invalid fund rows) is the judgement's verdict.
- Time zones: bars and ranges of the KRX provider are given by local dates.
- Turning a KRX row's text into numbers: a row has its bar or is malformed.
- KrxPrefetch.KrxProvider.constructor: a negative interval or retry count, which the code refuses with an error, is excluded by its precondition and its types.
- FrameCodec.DecodeDataFrame: the record count is parsed as ASCII decimal text with sign, single underscores and ASCII blanks; other Unicode digits and blanks, which `int` accepts, are errors here.
- The names of a KIS schema's fields: a schema is its width.
- In the study's counter a value's own missing reason is kept apart from the builders' codes, also when the texts coincide; the sums are not affected.
- The strategy and feature behind a candidate, the H2 premium, the cost model, calibration, provider registry and health monitor: easier variants of what is covered, or plumbing.
