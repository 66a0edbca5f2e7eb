# Quantflow, verified

A Dafny model of the parts of quantflow whose correctness is a matter of state, order and arithmetic, with
proofs of what those parts promise. Verify it with `dafny verify dfyconfig.toml`. Each file is one module.

| Area | Files | Models |
|---|---|---|
| Partition archive | `ArchiveTree`, `ArchivePlan`, `ArchiveMonths`, `ArchiveShape`, `ArchiveBlocks`, `ArchiveMigration`, `ArchiveSafety`, `ArchiveManifest`, `ArchiveRerun`, `ArchiveSecond`, `ArchiveResume`, `ArchiveMeta`, `ArchiveExamples` | `scripts/archive_legacy_partitions.py` |
| BTC overlay | `Signal`, `OverlaySim`, `OverlayBars`, `OverlayLaws`, `OverlayBand`, `OverlayCosts`, `OverlayRuin`, `OverlayThrottle` | `scripts/run_btc_overlay_dd_optimize.py`, `scripts/run_btc_beta_overlay_eval.py` |
| Rate limiter and retry | `RateLimiter`, `RetryCall` | `quantflow/common/netretry.py` |
| Event bus | `BusModel`, `BusLaws`, `BusAborts`, `BusEffects`, `EventBus` | `quantflow/common/event_bus.py` |
| Exchange pagination | `Timeline`, `FundingWalk`, `KlineCursor`, `KlineGaps`, `MarkPrice` | `quantflow/data/bybit_meta_fetcher.py`, `scripts/download_spot_perp_data.py` |
| Cleaning and alignment | `Columns`, `Outliers`, `OutlierFlags`, `Cleaner`, `CleanerRows`, `Alignment` | `quantflow/data/cleaner.py`, `quantflow/data/mtf_aligner.py`, `scripts/run_baseline3_challenger.py` |
| Configuration | `ConfigMerge`, `ConfigDicts`, `EnvTree`, `EnvNames`, `EnvOrder`, `ConfigLoad` | `quantflow/common/config.py` |
| Walk-forward and streak | `Segments`, `Streak` | `scripts/run_baseline1_challenger.py`, `scripts/run_baseline3_challenger.py`, `scripts/paper_day_streak.py` |

## How the model is built

- **Archive.** The file tree is a map from paths to nodes. A run is a program of steps (make directories, write a
  file, move a directory); `Workspace.Archive` performs it in place and may die before any step. The proofs follow
  each node to its current place, so undoing, losing nothing and keeping coverage hold at every crash point.
- **Overlay.** Prices and equity are reals. Each simulator writes the equity array in place, twice a bar; a
  specification function gives the array after every iteration, and the laws are proved of that function.
- **Limiter.** `acquire` suspends only for the lock and for its sleep. Between those points it runs as atomic
  segments, which the methods of `RetryableLimiter` tie to the events of a protocol of any number of callers; the
  spacing laws hold of every sequence of events. The clock never goes back and a sleep never ends early.
- **Bus.** Handlers are arbitrary scripts of bus operations, which may differ from call to call. They may raise an
  Exception, which the bus catches, or abort with anything else (a cancellation, an exit), which it does not.
  `BusModel` says what each operation makes of the bus, as a function; the methods of `Bus` are proved to do exactly
  that, and the laws are proved of the function. A log holds every attempt, so that what a publish has attempted is
  read from it. Suspended asynchronous publishes are frames that the event loop resumes in any order, between
  stretches of other code. Depth stands for what is left of the recursion limit, so that re-publishing handlers end;
  beyond it a call raises, as the interpreter's does.
- **Pagination.** A server is its full history and a page contract: the newest records of a closed window for
  funding, the oldest bars at or after a cursor for klines, either end for mark prices.
- **Cleaning and alignment.** A table is a column of optional values for each field. The z-score is decided by
  squares, so no square root is needed. A sort that is not stable is any sorted arrangement of the rows.
- **Configuration.** Layers are nested dictionaries as values, read by path; the merge is proved on dictionaries as
  objects too, where what is shared and what is left alone can be told. A layer settles a path when it has
  anything there or a plain value on the way to it.
- **Walk-forward and streak.** Stamps are milliseconds and dates are day numbers. The ledger is a class whose
  ingest replaces its fields.

## Where the code falls short of what it says

Each point names the input on which the code falls short and the exact condition under which it does not.

- The archive tool says its manifest is the rollback reference of a run. Its stamp has a resolution of one second; a
  second run within that second overwrites it with an empty one (`ArchiveExamples.PlainLosesItsRecord`). It survives
  exactly when the stamps differ or nothing was moved (`ArchiveRerun.RerunKeepsManifest`), and in general when the
  second run writes the same (`ArchiveSecond.SecondRunManifest`).
- Writing the manifest truncates it first. Dying inside the last write, after everything has been moved, leaves no
  rollback reference; dying inside the first is harmless (`ArchiveSecond.TornWrite`).
- A run that dies between the move of a bar directory and those of its metas cannot be resumed with the same relabel
  choice: no such plan takes those metas up (`ArchiveResume.FundingStranded`). Every pending operation is taken up
  exactly when there are none such (`ArchiveResume.ResumeTakesUp`). With relabelling switched on, a stranded meta of the
  relabel target is taken up exactly when its suffixed name is free (`ArchiveResume.PendingTakenUp`,
  `ArchiveResume.FundingRelabelled`).
- Meta directories are archived along with their bar directory, whose replacement alone is checked, so their history
  may end up in no live partition (`ArchiveExamples.MetaHistoryUnreplaced`). It is in one exactly when it was before
  (`ArchiveMeta.MetaCoverage`).
- Cost does not always lower equity. In add_on mode a bar that ruins the account leaves less debt at a higher cost
  (`OverlayRuin.RuinRewardsCost`). The exact condition is the parity of ruinous bars
  (`OverlayCosts.CostlierIsNoRicher`).
- The retry helper says its back-off is capped at four seconds. No cap is in the code; the third delay is above four
  seconds exactly when its jitter is positive (`RetryCall.DefaultBackoff`).
- The mark-price cursor moves forward from the last stamp seen. From an endpoint that cuts its pages at the newest
  end, as the funding endpoint does, a longer range than one page comes back cut, without an error
  (`MarkPrice.FetchMark`).
- The kline download stops without a word at a page with nothing finite on it, and with a warning at its page cap
  (`KlineGaps.GoodBarLost`). When it is complete is decided by the missing bars alone (`KlineGaps.DownloadComplete`,
  `KlineGaps.DownloadGaps`).
- A handler that ends with anything but an Exception ends the dispatch, and the handlers after it are not called
  (`BusAborts.AbortSilencesTheRest`). A publish is cut short exactly when the body of a synchronous handler it found
  ends so (`BusAborts.PublishCutWhere`); for handlers that do not publish, their bodies alone decide
  (`BusAborts.PublishCutExactly`).
- The interpolating fill looks ahead: a gap with a value above is filled from the rows below
  (`Columns.InterpolationLooksAhead`).
- Cleaning is not idempotent in general: the envelope fix can give a row a high or low that a second cleaning
  carries on to the next row (`Cleaner.CleanTwiceLeaks`; the condition is in `Cleaner.CleanTwice`).
- A higher-timeframe table of a single bar has no period, so the bar is shown before it has closed exactly when its
  opening is on the index (`Alignment.OneBarSeenEarly`). A bar whose close is not on the index is lost, not delayed
  (`Alignment.FillIsAsOf`).
- The funding join sorts the bar stamps but puts its column back by position. It looks ahead exactly on bars out of
  time order (`Alignment.LooksAheadUnlessSorted`).
- Two environment variables of which one continues the other fail or not depending on the order of the environment;
  the order is irrelevant exactly when there are none such (`EnvOrder.OrderMattersExactly`).
- The rolling and the anchored loop, which share their window length, differ by one when a boundary falls between their
  limits, and start at different boundaries when the first row is not the earliest (`Segments.OneWindowMore`,
  `Segments.SameForwards`).
- The ledger's comment says the first credit of a day is kept; the last one is (`Streak.SecondCreditReplaces`,
  `Streak.FirstCreditKept`), so its entries depend on the order in which the directory lists the files
  (`Streak.EntriesInAnyOrder`). Its header asks for an ok status; an unlisted status with a clean preflight is credited
  too (`Streak.CreditExactly`).
- A streak that ended long ago still meets the target while today is not credited (`Streak.StaleStreakMeets`,
  `Streak.TargetAgainstWindow`), and crediting today can make the streak shorter (`Streak.CreditingToday`).

## Model

| member | source | states |
|---|---|---|
| ArchivePlan.CollectMonths | scripts/archive_legacy_partitions.py:53-62 | The nested directory listing, in whatever order it comes, collects exactly the (year, month) pairs with a digit-named parquet file in a digit-named directory. |
| ArchivePlan.FirstReplacement | scripts/archive_legacy_partitions.py:75-92 | A replacement is found exactly when some suffixed partition exists, is dated and holds every legacy month; what is found satisfies this. |
| ArchivePlan.FindReplacement | scripts/archive_legacy_partitions.py:65-92 | The loop over the three suffixes returns the first partition that qualifies. |
| ArchiveMonths.SameNumber | scripts/archive_legacy_partitions.py:56-61 | Two names made of digits are the same year or month exactly when they agree but for leading zeros. |
| ArchiveMonths.GateOnNames | scripts/archive_legacy_partitions.py:65-92 | In terms of file names: what replaces a legacy directory is the first of its -OKX, -BINANCE and -BYBIT partitions that is a directory, is dated, and has for every Y/M.parquet of the legacy directory a file with the same year and month but for leading zeros; none is found exactly when no partition is so. |
| ArchivePlan.BuildPlan | scripts/archive_legacy_partitions.py:95-133 | The planner builds the legacy entries in order, each with its metas unless the relabelling owns them, and then one entry per possible relabelling. |
| ArchivePlan.Precheck | scripts/archive_legacy_partitions.py:158-185 | One pass over the plan accumulates problems, moves and relabellings; an entry without a replacement contributes neither. |
| ArchiveShape.CheckPlanResult | scripts/archive_legacy_partitions.py:158-185 | The pre-check reports nothing exactly when every entry passes, and then hands over every planned operation, in order. |
| ArchiveShape.PlanShape | scripts/archive_legacy_partitions.py:95-133 | The plan of any tree moves only directories of its own targets, each once, and relabels only metas, each once. |
| ArchiveShape.PlanIndependent | scripts/archive_legacy_partitions.py:107-129 | Operations of a plan never reach into one another: sources and destinations are pairwise apart, so no path is in two of them. |
| ArchiveSafety.BlockedExactly | scripts/archive_legacy_partitions.py:168-185 | A run is blocked exactly when some entry lacks a replacement or some move has its destination taken; a missing source or a relabelling never blocks. |
| ArchiveBlocks.BlockedOnNames | scripts/archive_legacy_partitions.py:95-185 | In terms of names: a run is cleared exactly when each of the four legacy directories that is there has such a partition, and nothing stands in the archive where it, or a meta directory to be archived with it, would go. |
| ArchiveMigration.Workspace.Archive | scripts/archive_legacy_partitions.py:145-226 | A blocked or dry run leaves the tree unchanged; an applied run that dies after any number of steps leaves exactly the tree of that prefix of its program, and the outcome says which of these happened. |
| ArchiveMigration.Workspace.Do | scripts/archive_legacy_partitions.py:202-223 | One step either extends the run or ends it for good. |
| ArchiveMigration.Workspace.DoMoves | scripts/archive_legacy_partitions.py:213-215 | The move loop performs its steps in order until it finishes or dies. |
| ArchiveMigration.Workspace.DoRelabels | scripts/archive_legacy_partitions.py:216-217 | The rename loop performs its steps in order until it finishes or dies. |
| ArchiveMigration.CutShort | scripts/archive_legacy_partitions.py:202-223 | A run that dies after n steps, or fails at step n, ends in the tree of the program cut at its lifetime. |
| ArchiveMigration.PassingIsAccepted | scripts/archive_legacy_partitions.py:158-200 | A verdict without problems has distinct operations, all of the plan, with every source a directory and every destination free. |
| ArchiveMigration.AcceptedIsMovable | scripts/archive_legacy_partitions.py:158-200 | On a tree with a directory above every node, such operations may run in any order. |
| ArchiveMigration.ProgramOrderly | scripts/archive_legacy_partitions.py:202-223 | The whole program makes each destination's parent before its move, moves each source once, and otherwise keeps out of the moved directories. |
| ArchiveBlocks.ProgramIs | scripts/archive_legacy_partitions.py:202-223 | The manifest is written as planned before anything is moved and as applied after everything is; in between come the moves in order, each after its destination's parent is made, and then the renames in order. |
| ArchiveTree.RunKeepsRooted | scripts/archive_legacy_partitions.py:202-223 | Wherever a run dies, every node still has a directory above it. |
| ArchiveTree.MoveArranges | scripts/archive_legacy_partitions.py:213-217 | A move is allowed whatever other moves have happened, and the arrangement reached depends only on which have: moves commute. |
| ArchiveTree.MoveBackArranges | scripts/archive_legacy_partitions.py:224 | A destination exists exactly when its entry has been carried out, and moving it back undoes that entry alone. |
| ArchiveTree.PlaceInjective | scripts/archive_legacy_partitions.py:213-217 | No two nodes of the original tree ever share a place: nothing is overwritten by a move. |
| ArchiveTree.RunArranges | scripts/archive_legacy_partitions.py:202-223 | A run of moves mixed with other steps leaves every node at its current place in the tree the other steps alone would have made. |
| ArchiveTree.CrashThenRollback | scripts/archive_legacy_partitions.py:202-225 | After a crash at any step, rolling back gives the tree the other steps alone would have made, whatever the plan order. |
| ArchiveTree.NothingLost | scripts/archive_legacy_partitions.py:202-225 | At every crash point each node is present, unchanged, at a place no other node has. |
| ArchiveManifest.ManifestAhead | scripts/archive_legacy_partitions.py:202-212 | Write-ahead: wherever the run of an accepted verdict dies, if anything has been moved the manifest is in the tree and lists every operation of the run. |
| ArchiveSafety.CrashIsReversible | scripts/archive_legacy_partitions.py:202-226 | For every tree, request and crash point, rolling the manifest back restores every file and directory but the manifest's own path, and adds only directories around the archive. |
| ArchiveManifest.ManifestRestores | scripts/archive_legacy_partitions.py:202-226 | The same with the manifest that is found in the tree when the run has died, if nothing was listed at its path before. |
| ArchiveSafety.CrashLosesNothing | scripts/archive_legacy_partitions.py:202-226 | For every tree, request and crash point, every file is present and unchanged, where it was or under its destination. |
| ArchiveSafety.CrashKeepsCoverage | scripts/archive_legacy_partitions.py:65-92 | At every crash point every month of a legacy bar directory is in the suffixed partition accepted as its replacement. |
| ArchiveMonths.CrashKeepsMonths | scripts/archive_legacy_partitions.py:65-92 | In terms of file names: at every crash point each Y/M.parquet of a legacy bar directory has a file for the same year and month, but for leading zeros, in the suffixed partition accepted as its replacement. |
| ArchiveMonths.BarsArchivedTo | scripts/archive_legacy_partitions.py:213-215 | A finished run leaves every file of a legacy bar directory at the same place below data/parquet_archive, the stamp and the directory's name, and nothing at its old place. |
| ArchiveMonths.MetasArchivedTo | scripts/archive_legacy_partitions.py:107-113 | The same of a meta directory of that name, unless the run relabels it. |
| ArchiveMonths.MetasRelabelledTo | scripts/archive_legacy_partitions.py:117-129 | A relabelling run leaves every file of a BTC_USDT meta directory below BTC_USDT-OKX instead, if that name is free. |
| ArchiveMeta.MetaArchived | scripts/archive_legacy_partitions.py:107-113 | A cleared run archives every meta directory of a bar directory it archives, but for those that relabelling owns; once it finishes they are gone from their place. |
| ArchiveMeta.MetaCoverage | scripts/archive_legacy_partitions.py:65-92 | At every crash point an archived meta directory has its months in a suffixed meta partition exactly when that partition held them before the run. |
| ArchiveMeta.RelabelKeepsMonths | scripts/archive_legacy_partitions.py:117-129 | A meta directory that a finished run relabels has exactly its months under the new name. |
| ArchiveExamples.MetaHistoryUnreplaced | scripts/archive_legacy_partitions.py:95-133 | A cleared tree whose archived funding month is in no suffixed partition at any point of the run. |
| ArchiveRerun.NothingLeftToPlan | scripts/archive_legacy_partitions.py:95-133 | After a finished run the same request plans nothing. |
| ArchiveRerun.RerunWrites | scripts/archive_legacy_partitions.py:145-223 | A second run of the same request changes nothing but the manifest of its own second, which then records no moves. |
| ArchiveRerun.RerunKeepsManifest | scripts/archive_legacy_partitions.py:145-223 | The first run's manifest is still there after the second exactly when the stamps differ or the first run had nothing to move. |
| ArchiveSecond.SecondRunManifest | scripts/archive_legacy_partitions.py:145-223 | For any two requests and any point of either run, the first run's manifest is as it was exactly when the stamps differ, or the second run has not written yet, or it writes the same: the same operations with the same status. |
| ArchiveSecond.TornWrite | scripts/archive_legacy_partitions.py:202-223 | Dying inside a write of the manifest leaves nothing to roll back by; the tree is as it was exactly when it was the first write, or there was nothing to move. |
| ArchiveSecond.TornRestores | scripts/archive_legacy_partitions.py:202-223 | If the manifest is torn at any point of the run, the tree is as it was exactly when nothing has been moved. |
| ArchiveResume.PendingPlanned | scripts/archive_legacy_partitions.py:95-133 | On the tree of a run that died, a pending move of a bar directory is planned again by a request with the same relabel choice, and one of a meta directory exactly when its bar directory has not been moved. |
| ArchiveResume.ResumeTakesUp | scripts/archive_legacy_partitions.py:95-133 | A second request with the same relabel choice takes up every pending operation exactly when no meta directory is pending whose bar directory has gone. |
| ArchiveResume.PendingTakenUp | scripts/archive_legacy_partitions.py:95-133 | With either relabel choice, a second request takes up every pending bar directory; a pending meta directory that its relabelling owns exactly when the suffixed name is free; any other exactly when its bar directory is still there. |
| ArchiveResume.MetaTakenUp | scripts/archive_legacy_partitions.py:107-129 | The same of any meta directory in any tree. |
| ArchiveResume.SomewhereStranded | scripts/archive_legacy_partitions.py:95-115 | Every run that archives a meta directory, and gets past the move of its bar directory, comes to such a point: just after that move. |
| ArchiveResume.FundingStranded | scripts/archive_legacy_partitions.py:95-115 | A tree whose run, dying after its fourth step, leaves a funding history under the legacy name that no second request with the same relabel choice plans to move. |
| ArchiveResume.FundingRelabelled | scripts/archive_legacy_partitions.py:117-129 | On the same tree a second request that asks for relabelling takes that history up, and relabels it. |
| ArchiveExamples.PlainLosesItsRecord | scripts/archive_legacy_partitions.py:145-223 | A tree with one legacy directory and its replacement, whose finished move a second run within the second erases from the manifest. |
| Signal.HeldSignal | scripts/run_btc_overlay_dd_optimize.py:116-128 | The loop over the bars computes the hysteresis state of every bar. |
| Signal.MaSignal | scripts/run_btc_overlay_dd_optimize.py:101-126 | Either branch trades, on each bar, the level decided by the closes before it. |
| Signal.HeldExactly | scripts/run_btc_overlay_dd_optimize.py:113-125 | The hysteresis state is on exactly when some gap was above the band and no gap since has been below its negative. |
| Signal.TradedWithBand | scripts/run_btc_overlay_dd_optimize.py:101-126 | With a band a bar trades the overlay exactly when some earlier bar's gap was above the band and none since, up to the bar before, below its negative. |
| Signal.TradedRaw | scripts/run_btc_overlay_dd_optimize.py:103-107 | Without one, exactly when the fast window's mean up to the bar before is above the slow one's. |
| Signal.WiderBandFlipsLess | scripts/run_btc_overlay_dd_optimize.py:113-125 | For any gaps, widening the band never adds a flip. |
| Signal.BandFlipsLessThanRaw | scripts/run_btc_overlay_dd_optimize.py:101-126 | On positive prices the band never flips more often than the raw crossover. |
| Signal.ConsecutiveFlipsApart | scripts/run_btc_overlay_dd_optimize.py:113-125 | Between two consecutive flips the gap changes by more than twice the band. |
| Signal.TravelBoundsFlips | scripts/run_btc_overlay_dd_optimize.py:113-125 | f flips need the gap to travel at least twice the band f - 1 times. |
| Signal.FlipsDominated | scripts/run_btc_overlay_dd_optimize.py:113-125 | A signal that agrees with another whenever it flips flips no more often than it. |
| Signal.GapSign | scripts/run_btc_overlay_dd_optimize.py:103-109 | On positive prices the gap is defined exactly once the averages are, and is positive exactly when the fast one is above. |
| OverlaySim.SimpleLoop | scripts/run_btc_beta_overlay_eval.py:95-111 | The array loop, writing the previous and the current bar in place, computes the simple book. |
| OverlaySim.SimulateBetaOverlay | scripts/run_btc_beta_overlay_eval.py:66-112 | The program refuses an unknown mode, then too few bars, and otherwise computes the simple book on its own signal. |
| OverlayBars.SimpleBar | scripts/run_btc_beta_overlay_eval.py:92-111 | Bar by bar: a change of position by d multiplies the bar before by 1 - d * w * cost and adds d * w to the turnover; the bar is then that equity times 1 plus the exposure, 1 + w * pos or 1 - w + w * pos, times the return. No other bar is touched. |
| OverlaySim.GeneralLoop | scripts/run_btc_overlay_dd_optimize.py:148-180 | The throttled array loop computes the general ledger. |
| OverlaySim.Simulate | scripts/run_btc_overlay_dd_optimize.py:135-180 | The program refuses too few bars and otherwise computes the general ledger on its own signal. |
| OverlayBars.ThrottledTrade | scripts/run_btc_overlay_dd_optimize.py:148-174 | Bar by bar: the position moves to the signal times the volatility scale times the risk scale, clipped to [0, 1], if that is more than 10^-12 away, and the bar before pays for the distance; otherwise nothing is traded. |
| OverlayBars.ThrottledEarns | scripts/run_btc_overlay_dd_optimize.py:176-180 | The bar is then what is left times 1 plus the exposure times the return, an active throttle in reduce_off mode taking the exposure to 0.55 + 0.45 * scale of it. |
| OverlayBars.PositionFollowsScale | scripts/run_btc_overlay_dd_optimize.py:157-174 | With a signal of 0 or 1 and the volatility target off, the position after a bar is the signal times the bar's risk scale, to within 10^-12. |
| OverlayBars.DeepDrawdown | scripts/run_btc_overlay_dd_optimize.py:157-180 | So from a drawdown of twice the threshold on the position is at most the floor, and the exposure at most 1 + w * floor in add_on mode and (1 - w + w * floor) * (0.55 + 0.45 * floor) in reduce_off mode, to within 10^-12. |
| OverlayLaws.GeneralRefinesSimple | scripts/run_btc_overlay_dd_optimize.py:135-180 | With throttle and volatility target off, every bar's equity, position and turnover equal the simple simulator's. |
| OverlayLaws.SimulatorsAgree | scripts/run_btc_beta_overlay_eval.py:66-112 | With hysteresis off as well, the two programs agree on every price series, in every mode. |
| OverlayLaws.CostIsAPower | scripts/run_btc_beta_overlay_eval.py:94-112 | Each bar's equity is its zero-cost equity times (1 - w * cost) to the number of switches charged to it, and turnover is w for each switch. |
| OverlayLaws.TurnoverIs | scripts/run_btc_beta_overlay_eval.py:94-112 | Turnover is w times the number of switches. |
| OverlayBand.WiderBandSwitchesLess | scripts/run_btc_overlay_dd_optimize.py:101-126 | The traded signal of a wider band switches no more often; on positive prices any band switches no more often than none. |
| OverlayBand.WiderBandTurnsOverLess | scripts/run_btc_overlay_dd_optimize.py:148-180 | With throttle and volatility target off, a run with a wider band turns over no more. |
| OverlayCosts.ZeroCostIsGross | scripts/run_btc_beta_overlay_eval.py:94-112 | Without costs each bar's equity is the product of what the bars so far multiply it by. |
| OverlayCosts.GrossSign | scripts/run_btc_beta_overlay_eval.py:94-112 | That product is zero exactly when a bar wiped the account out, and otherwise positive exactly after an even number of ruinous bars. |
| OverlayCosts.CostAt | scripts/run_btc_beta_overlay_eval.py:94-112 | Net of costs each bar's equity is that product times the cost factor to the switches paid for. |
| OverlayCosts.CostlierIsNoRicher | scripts/run_btc_beta_overlay_eval.py:94-112 | A higher cost leaves a bar no richer exactly when the account was wiped out or ruined an even number of times by then, or the bar has paid for no switch, or the rates are equal. |
| OverlayCosts.ZeroCostPositive | scripts/run_btc_beta_overlay_eval.py:94-112 | On positive prices, with w in [0, 1] in reduce_off mode or no single-bar ruin in add_on mode, zero-cost equity is positive. |
| OverlayCosts.EquityFallsWithCost | scripts/run_btc_beta_overlay_eval.py:94-112 | Under those conditions equity never rises with cost, at any bar. |
| OverlayRuin.RuinRewardsCost | scripts/run_btc_beta_overlay_eval.py:92-111 | For all windows with the fast one shorter, every weight and two costs, a positive series that the program accepts ends, on the program's own signal in add_on mode, with more equity at the higher cost. |
| OverlayCosts.NoOverlayIsHolding | scripts/run_btc_beta_overlay_eval.py:94-112 | With w = 0 equity is the price relative, whatever signal, cost and mode. |
| OverlayThrottle.RunHealthy | scripts/run_btc_overlay_dd_optimize.py:148-180 | In every reduce_off run equity stays positive, the peak bounds all earlier equity, and the position stays in [0, 1]. |
| OverlayThrottle.RunBounded | scripts/run_btc_overlay_dd_optimize.py:148-180 | At every bar drawdown is in [0, 1), the scale in [floor, 1], the exposure in [0, 1], and growth loses no more than holding. |
| OverlayThrottle.RiskScaleShape | scripts/run_btc_overlay_dd_optimize.py:157-166 | The risk scale is 1 exactly up to the threshold, never rises with the drawdown, and is at its floor exactly from twice the threshold on. |
| OverlayThrottle.LedgerAgrees | scripts/run_btc_overlay_dd_optimize.py:135-180 | With the volatility lever off, runs whose closes agree through bar i have the same ledger after it. |
| OverlayThrottle.ExposureIsCausal | scripts/run_btc_overlay_dd_optimize.py:148-180 | With the volatility lever off, drawdown, scale, position and exposure of bar i depend only on closes before i. |
| RateLimiter.RetryableLimiter.constructor | quantflow/common/netretry.py:55-58 | A new limiter is in the starting state. |
| RateLimiter.RetryableLimiter.BeginAcquire | quantflow/common/netretry.py:64-69 | Taking the lock and computing the wait is the protocol's Enter event. |
| RateLimiter.RetryableLimiter.WakeUp | quantflow/common/netretry.py:69 | The end of the sleep is the Wake event. |
| RateLimiter.RetryableLimiter.FinishAcquire | quantflow/common/netretry.py:70 | Writing the stamp and leaving the lock is the Stamp event, at the current time. |
| RateLimiter.RetryableLimiter.CancelAcquire | quantflow/common/netretry.py:66-70 | A cancellation frees the lock and stamps nothing. |
| RateLimiter.RunKeepsInvariant | quantflow/common/netretry.py:64-70 | Over every interleaving of any callers, with cancellations, at most the lock's holder sleeps or is ready, and grants are an interval apart. |
| RateLimiter.WindowBound | quantflow/common/netretry.py:44-70 | Any time window of length L holds at most floor(L / interval) + 1 grants, in every run. |
| RateLimiter.WindowBoundAttained | quantflow/common/netretry.py:44-70 | Some run has k + 1 grants in k intervals: the bound is exact. |
| RateLimiter.EarliestGrant | quantflow/common/netretry.py:64-70 | With the lock free, the next task is granted its slot at once exactly when the interval since the last is over, and after any sleep exactly when it is over by then. |
| RateLimiter.OneGrantPerCall | quantflow/common/netretry.py:64-70 | Calls of a task are its grants, its cancellations and the one under way, if any. |
| RetryCall.FirstDecisive | quantflow/common/netretry.py:95-102 | The attempt that ends a call is the first to succeed, be cancelled or fail for good. |
| RetryCall.Call | quantflow/common/netretry.py:93-117 | The loop asks the limiter once for each attempt up to the decisive one or up to a cancelled back-off sleep, never more than MAX_RETRIES + 1 times. Every attempt but the last failed with a network-class error or the rate-limit code; the call ends as the last one did, exhausted if that failed so too, or cancelled. It has slept one dithered delay per finished back-off. |
| RetryCall.SleptStep | quantflow/common/netretry.py:93-116 | Each retry sleeps twice as long as the one before, plus up to a tenth as its draw says. |
| RetryCall.BackoffTotal | quantflow/common/netretry.py:93-116 | After n retries the sleeps total between base * (2^n - 1) and 1.1 times that. |
| RetryCall.DefaultBackoff | quantflow/common/netretry.py:36-40 | The defaults sleep 7 to 7.7 seconds in all; the third sleep exceeds the documented 4 seconds exactly when its jitter is positive. |
| BusModel.SubscribeUnsubscribeMultiset | quantflow/common/event_bus.py:67-81 | Subscribing and unsubscribing a handler restores the registrations as a multiset. |
| BusModel.SubscribeUnsubscribeOrder | quantflow/common/event_bus.py:67-81 | It restores their order exactly when everything from the handler's first registration on is that registration. |
| EventBus.Bus.DoSubscribe | quantflow/common/event_bus.py:67-71 | Appends one registration for the event and touches no other. |
| EventBus.Bus.DoUnsubscribe | quantflow/common/event_bus.py:73-81 | Removes the first registration of the handler, if there is one, and touches no other event. |
| EventBus.Bus.DoClear | quantflow/common/event_bus.py:117-119 | Removes every registration. |
| EventBus.Bus.DoPublish | quantflow/common/event_bus.py:83-101 | The dispatch loop does exactly what publishing is specified to do. On a sound bus it attempts the registrations present at its start, once each and in order, or, when it is aborted, the first part of them; it disturbs no other publish; it is never aborted if no handler aborts; and with a running loop the coroutines attempted, and nothing else, become tasks. |
| BusLaws.PublishKeeps | quantflow/common/event_bus.py:83-101 | Whatever handlers do (subscribe, unsubscribe, clear, publish, raise), a publish that is not aborted attempts exactly the registrations it found, once each and in order; one that is, the first part of them; publishes begun before are not disturbed. |
| BusAborts.PublishCutWhere | quantflow/common/event_bus.py:92-101 | A publish is aborted exactly when the body of one of the synchronous handlers it found ends with something that is no Exception, and has then attempted everything up to that handler and nothing after it. |
| BusAborts.PublishCutExactly | quantflow/common/event_bus.py:92-101 | If those handlers do not publish, that is decided by their bodies alone: the publish stops at the first whose first raise or abort is an abort, and everything attempted, and nothing else, is in the log. |
| BusAborts.PublishAborts | quantflow/common/event_bus.py:92-101 | An aborted publish has tried, itself or through publishes of its handlers, a handler that aborts. |
| BusAborts.NoAbortNoCut | quantflow/common/event_bus.py:83-101 | If no handler aborts, whatever else they do, every publish within the recursion limit attempts exactly what it found. |
| BusAborts.AbortSilencesTheRest | quantflow/common/event_bus.py:83-101 | Two handlers of one event: if the first raises the second is called, and if it aborts it is not. |
| EventBus.Bus.DoPublishAsync | quantflow/common/event_bus.py:103-115 | The same of the awaiting loop, when each await lets the event loop run anything meanwhile, other asynchronous publishes among it. |
| BusAborts.AsyncCutExactly | quantflow/common/event_bus.py:103-115 | If no handler publishes and each always ends alike, an asynchronous publish is aborted exactly when one it found aborts, and stops at the first that does, whatever the event loop runs meanwhile. |
| BusAborts.NoAbortNoCutAsync | quantflow/common/event_bus.py:103-115 | If no handler aborts, an asynchronous publish attempts exactly what it found, whatever runs meanwhile. |
| EventBus.Bus.Handle | quantflow/common/event_bus.py:92-101 | A call ends the publish exactly when the handler body ends with something that is no Exception; otherwise the dispatch goes on. |
| BusLaws.HandleKeeps | quantflow/common/event_bus.py:92-101 | In either case everything up to the handler has been attempted and nothing after it, and no other publish is disturbed. |
| EventBus.Bus.StartPublish | quantflow/common/event_bus.py:103-108 | An asynchronous publish begins with the registrations present, none attempted. |
| EventBus.Bus.DeliverNext | quantflow/common/event_bus.py:105-115 | Each delivery of a suspended publish attempts the next registration it found, whatever its handler does; the publish is then suspended again, or cut off exactly when the handler aborts, and no publish but suspended ones goes on. |
| BusLaws.ResumeKeeps | quantflow/common/event_bus.py:105-115 | The same of the specification, with the end of a publish that has delivered everything. |
| EventBus.Bus.EndPublish | quantflow/common/event_bus.py:105-115 | A suspended publish ends with exactly what it found attempted, once each and in order. |
| EventBus.Bus.RunTurns | quantflow/common/event_bus.py:83-115 | The event loop takes the turns it is given, in order, and keeps the bus sound. |
| BusLaws.TurnsKeep | quantflow/common/event_bus.py:83-115 | Whatever turns the event loop takes, with any number of asynchronous publishes overlapping, every finished publish has attempted exactly what it found and every other the first part of it. |
| EventBus.Bus.RunActions | quantflow/common/event_bus.py:83-101 | A body runs in order until its first raise or abort, or a publish of its own that is aborted; it disturbs no publish under way. |
| BusLaws.ActedQuiet | quantflow/common/event_bus.py:83-101 | Whatever a body does, no publish begun before it is disturbed. |
| BusAborts.FlatActed | quantflow/common/event_bus.py:83-101 | A body that does not publish ends as its first raise or abort says, and changes nothing but the registrations. |
| BusEffects.ActedStep | quantflow/common/event_bus.py:67-119 | A body goes on to its next action exactly while none has raised, aborted or been aborted: a subscription is appended, an unsubscription takes the first of the handler away, a clear empties every list, and a publish enters the book with what it found. |
| BusEffects.PublishTasks | quantflow/common/event_bus.py:92-98 | With a running loop a publish schedules exactly the coroutine registrations that it and the publishes of its handlers attempted; without one it schedules none. |
| BusEffects.TurnStep | quantflow/common/event_bus.py:83-115 | Each turn of the event loop has its own effect on what the turns before it left: a publish begins, a suspended one attempts one registration more or ends, a body runs. |
| BusEffects.SubscribedMeanwhile | quantflow/common/event_bus.py:103-113 | A handler subscribed at every await of an asynchronous publish stands that many times more afterwards and has not been attempted by it. |
| BusEffects.NestedDelivered | quantflow/common/event_bus.py:83-101 | A handler's own publish is delivered at once, exactly when the recursion limit leaves room for it. |
| Timeline.TidyKeeps | quantflow/data/bybit_meta_fetcher.py:239-243 | De-duplicating and sorting gives strictly ascending rows with exactly the same stamps. |
| Timeline.TidyFirst | quantflow/data/bybit_meta_fetcher.py:239-243 | Of the rows with one stamp the first is kept. |
| Timeline.AscendingUnique | quantflow/data/bybit_meta_fetcher.py:239-243 | Two ascending series with the same records are the same series. |
| FundingWalk.WindowsBound | quantflow/data/bybit_meta_fetcher.py:182-197 | The k-th window is requested exactly when since + k * window is before now; it starts there and ends a window later or now, whichever is earlier. |
| FundingWalk.Fetch | quantflow/data/bybit_meta_fetcher.py:176-245 | The walk fails exactly when 500 windows from its start end before now, and otherwise returns what its windows fetched, once each and in order. |
| FundingWalk.WalkComplete | quantflow/data/bybit_meta_fetcher.py:176-245 | The result is every settlement in [since, now] exactly when no window has more fresh records than a page holds. |
| FundingWalk.OverfullLoses | quantflow/data/bybit_meta_fetcher.py:176-233 | A window with more fresh records than the limit loses one for good. |
| FundingWalk.SpacedWalkComplete | quantflow/data/bybit_meta_fetcher.py:164-245 | Settlements spaced so that floor(window / gap) + 1 fit in a page are all returned. |
| FundingWalk.DefaultWalkComplete | quantflow/data/bybit_meta_fetcher.py:176-183 | The default page and window suffice for settlements at least four hours apart. |
| KlineCursor.FetchPerpKlines | scripts/download_spot_perp_data.py:45-78 | On every exit path the rows are the finite bars collected up to the end, strictly ascending. |
| KlineCursor.WantedExactly | scripts/download_spot_perp_data.py:45-78 | The bars wanted are the finite ones with a stamp in [since, end], in order, and the download is a first part of them. |
| KlineGaps.ScanChained | scripts/download_spot_perp_data.py:53-72 | The loop gets past a wanted bar exactly when as many finite bars as it has pages, each within a page of the one before, lead there. |
| KlineGaps.DownloadComplete | scripts/download_spot_perp_data.py:45-78 | The download is the server's finite bars in [since, end] exactly when at most 500 such bars lead from the first bar to the last wanted one. |
| KlineGaps.DownloadGaps | scripts/download_spot_perp_data.py:62-66 | A whole page of missing bars before the last wanted one always loses bars; with no more bars than pages nothing else does. |
| KlineGaps.DownloadSuffices | scripts/download_spot_perp_data.py:53-72 | Without such a gap 250 times one bar more than a page are downloaded for certain. |
| KlineGaps.GoodBarLost | scripts/download_spot_perp_data.py:62-66 | For every page size, a page of missing bars and a good one after it: the download comes back empty. |
| KlineCursor.DownloadCapacity | scripts/download_spot_perp_data.py:38-57 | With all bars finite the download is complete exactly when at most 500 pages of bars are wanted. |
| MarkPrice.FetchMark | quantflow/data/bybit_meta_fetcher.py:273-323 | From an endpoint that cuts pages at the oldest end the whole range comes back, or the call fails, exactly when there are 500 times the page limit or more; from one that cuts at the newest end the call never fails and the range comes back exactly when it fits in one page. |
| Outliers.FewAreFlagged | quantflow/data/cleaner.py:176-192 | Of N known returns with a non-zero sample deviation, the flagged rows times the squared threshold are fewer than N - 1. |
| OutlierFlags.DetectExactly | quantflow/data/cleaner.py:176-192 | A row is flagged exactly when the table has three rows and no jump from zero, two of its returns differ, and the row's own return r satisfies (r - m)^2 * (N - 1) > n^2 * S, with m the mean of the N known returns and S the sum of their squared distances from it. |
| OutlierFlags.KnownReturns | quantflow/data/cleaner.py:184-186 | The known returns are, row by row, the relative changes of the close, where it and the one before are present and that one is not zero. |
| Outliers.NoOutlierIn26 | quantflow/data/cleaner.py:176-192 | At five deviations, 26 or fewer returns have no outlier. |
| Outliers.OutlierIn27 | quantflow/data/cleaner.py:176-192 | With 27 returns one can be flagged: the bound is exact. |
| Cleaner.CleanOhlcv | quantflow/data/cleaner.py:46-108 | Whichever arrangement the unstable sort chooses and whichever fill is asked for, the pipeline refuses exactly the tables with a future stamp, when asked to, and otherwise computes the cleaned table. |
| Cleaner.CleanColumns | quantflow/data/cleaner.py:55-108 | On a sorted table the steps of the pipeline, column by column, come to the cleaned table. |
| Cleaner.RawStampKept | quantflow/data/cleaner.py:46-60 | No stamp of the table is lost between the sort and the end. |
| CleanerRows.SortedRow | quantflow/data/cleaner.py:46-49 | The sort moves whole rows. |
| CleanerRows.KeptRow | quantflow/data/cleaner.py:55-60 | De-duplication keeps whole rows, each the last of its stamp. |
| Cleaner.KeptLast | quantflow/data/cleaner.py:55-60 | De-duplication keeps the last row of every stamp and no other. |
| Cleaner.NoStampLost | quantflow/data/cleaner.py:46-60 | No stamp of the table is lost. |
| Cleaner.SoundRowStays | quantflow/data/cleaner.py:46-108 | A complete row that is neither flagged nor invalid keeps its prices, under every fill. |
| Cleaner.FixedIsTight | quantflow/data/cleaner.py:100-106 | The high becomes the highest price of the row and the low the lowest of the others, the high that was there being gone by then. |
| Cleaner.CleanStamps | quantflow/data/cleaner.py:46-60 | Stamps of the cleaned table are strictly increasing, whichever duplicate the sort left last. |
| Cleaner.CleanEnvelope | quantflow/data/cleaner.py:88-106 | No cleaned row is invalid by the pipeline's own test. |
| CleanerRows.CleanBar | quantflow/data/cleaner.py:88-106 | On every cleaned row low <= open, close, high and open, close <= high, as far as these prices are there. |
| CleanerRows.EnvelopeFixed | quantflow/data/cleaner.py:88-106 | The last step leaves such rows alone; any other gets the highest of its prices as its high and the lowest of the others as its low. |
| CleanerRows.VolumeIs | quantflow/data/cleaner.py:73-75 | The volume of a row is the kept row's own, or zero where it has none. |
| Cleaner.CleanRow | quantflow/data/cleaner.py:46-108 | If the first kept row is complete, every cleaned row has its four prices, with low <= open, close <= high, under either fill. |
| Cleaner.ReplacedIs | quantflow/data/cleaner.py:84-86 | After replacement a row carries the price of the nearest unflagged row at or before it. |
| Cleaner.FlaggedRowPrices | quantflow/data/cleaner.py:78-86 | Before the envelope is fixed, a flagged row has all four prices of that row. |
| Columns.FfillFixed | quantflow/data/cleaner.py:67-68 | A column is its own forward fill exactly when no gap follows a value. |
| Columns.InterpolatedFixed | quantflow/data/cleaner.py:69-70 | The same of interpolation. |
| Columns.BetweenNeighbours | quantflow/data/cleaner.py:69-70 | An interpolated gap lies strictly between the two values around it, or is level with them. |
| Columns.InterpolatedIs | quantflow/data/cleaner.py:69-70 | A gap between values at rows a and b lies on the line through them; a gap at the end has the last value and one at the start stays. |
| Columns.InterpolationLooksAhead | quantflow/data/cleaner.py:69-70 | The rows below a row decide its interpolated value exactly when it is a gap with a value above and a row below. |
| Cleaner.CleanTwice | quantflow/data/cleaner.py:46-108 | With outlier removal off, cleaning is idempotent exactly when nothing is filled, or no invalid row is followed by a valid one that lacks a high or low after the fill, forward or interpolating. |
| Cleaner.CleanTwiceComplete | quantflow/data/cleaner.py:46-108 | In particular when the first kept row is complete, under every fill. |
| Cleaner.CleanTwiceLeaks | quantflow/data/cleaner.py:100-106 | A two-row table whose second cleaning invents a high, under either fill. |
| Alignment.AlignedIsClosed | quantflow/data/mtf_aligner.py:183-214 | With a period p, an aligned value is that of a bar whose opening plus p is no later than its stamp. |
| Alignment.AlignmentIsCausal | quantflow/data/mtf_aligner.py:209-214 | With a period p, deleting every bar whose opening plus p is after T changes no aligned value at or before T. |
| Alignment.OneBarSeenEarly | quantflow/data/mtf_aligner.py:32-43 | A table of one bar gives no period; some aligned stamp then shows the bar before it has closed exactly when its opening stands on the index. |
| Alignment.AlignedShows | quantflow/data/mtf_aligner.py:209-214 | With a period p and no missing values an aligned stamp shows the bar that opened p before the last close met on the index. |
| Alignment.FillIsAsOf | quantflow/data/mtf_aligner.py:214 | Reindex-and-fill is the backward as-of join at a stamp exactly when the close that join would show stands on the index. |
| Alignment.FundingIsCausal | scripts/run_baseline3_challenger.py:168-185 | On time-sorted bars, deleting the funding after T changes no bar at or before T. |
| Alignment.FundingShowsLatest | scripts/run_baseline3_challenger.py:168-185 | On time-sorted bars each bar carries the rate settled last at or before it, or zero before the first. |
| Alignment.SortIs | scripts/run_baseline3_challenger.py:176-181 | The join's stamps are the bars' own in time order. |
| Alignment.FundingByPosition | scripts/run_baseline3_challenger.py:176-185 | In general the k-th bar carries the rate settled last at or before the k-th of those stamps, or zero. |
| Alignment.LooksAheadUnlessSorted | scripts/run_baseline3_challenger.py:168-185 | The funding join is safe for every funding history exactly when the bars are in time order. |
| Alignment.OiLooksAheadBeforeFirst | scripts/run_baseline3_challenger.py:187-205 | Bars before the first open-interest value carry that later value; from there on the column is the backward join, filled forward. |
| Alignment.OiShows | scripts/run_baseline3_challenger.py:187-205 | In terms of the records: a time-sorted bar carries the last value by then; before the first, that of the first bar which has one; and 1.0 when no bar has. |
| ConfigMerge.DeepMerge | quantflow/common/config.py:493-501 | The loop over the overriding entries, in any order, computes the merge. |
| ConfigDicts.DeepMerge | quantflow/common/config.py:493-501 | On dictionaries as objects: the result has the merged value, is new, and is made of new sections and the overriding layer's own, none of the base's; base and layer are left as they were. |
| ConfigDicts.DeepCopy | quantflow/common/config.py:495 | The copy has the same value and is new all the way down. |
| ConfigDicts.MergeEntry | quantflow/common/config.py:496-500 | An entry that is not a section on both sides is put into the result as it is, not copied. |
| ConfigMerge.LoadLayers | quantflow/common/config.py:439-444 | The layers are merged in order, the third only when it has entries, which comes to merging all three. |
| ConfigMerge.MergeAt | quantflow/common/config.py:493-501 | At any path a merge holds the overriding layer's leaf, the two sections merged, nothing under an overriding leaf, or else what the base holds. |
| ConfigMerge.SettingPriority | quantflow/common/config.py:425-446 | Every setting is the command line's if it settles the path, else the environment's if that does, else the file's. |
| ConfigMerge.MergeTwice | quantflow/common/config.py:493-501 | Merging the same layer again changes nothing. |
| ConfigMerge.MergeIsOver | quantflow/common/config.py:493-501 | A merge is the overriding layer alone exactly when that layer settles every path of the base. |
| ConfigMerge.MergeAssociative | quantflow/common/config.py:493-501 | Merging is associative exactly when no section of the first layer, flattened by the second and reopened by the third, holds a path the third does not settle. |
| EnvTree.SetNestedFails | quantflow/common/config.py:486-490 | Setting a path raises exactly when a plain value stands above it. |
| EnvTree.SetNestedAt | quantflow/common/config.py:486-490 | Otherwise the path holds the value, sections stand above it, nothing is below it, and every other path is as before. |
| EnvTree.JoinSplit | quantflow/common/config.py:462 | Splitting a name at its double underscores loses nothing. |
| EnvNames.SplitCuts | quantflow/common/config.py:462 | No part holds two underscores in a row and no part but the last ends in one. |
| EnvNames.SplitOfJoin | quantflow/common/config.py:462 | Such parts are what the name they make up is split into, so the split is the only one. |
| EnvNames.NamesExactly | quantflow/common/config.py:458-462 | A variable has a path exactly when its name has the prefix; the path is the one such list of parts that, joined by double underscores, is the rest of the name in lower case. |
| EnvNames.VarsListed | quantflow/common/config.py:449-466 | The loader sets a value at a path exactly when some variable's name stands for that path and its text parses to that value. |
| EnvNames.RiskMaxDrawdown | quantflow/common/config.py:449-454 | QUANTFLOW_RISK__MAX_DRAWDOWN stands for risk.max_drawdown. |
| EnvTree.LoadEnvOverrides | quantflow/common/config.py:449-466 | The loop over the environment assembles the prefixed variables in order and stops at the first it cannot set. |
| EnvTree.AssembledShows | quantflow/common/config.py:449-466 | Variables whose paths neither equal nor continue one another never fail, and the tree holds each at its path, sections above them and nothing more. |
| EnvTree.SameVariablesSameTree | quantflow/common/config.py:449-466 | Their tree depends only on which variables there are. |
| EnvOrder.OrderMattersExactly | quantflow/common/config.py:449-466 | Every order of the environment gives the same result exactly when no variable's path equals or continues another's. |
| ConfigLoad.LoadConfig | quantflow/common/config.py:425-446 | Loading fails exactly when the environment cannot be assembled, and otherwise hands over the three layers merged. If no variable's path continues another's, and equal paths have equal values, it does not fail, and holds every variable's value at exactly the parts of its name wherever the command line is silent. |
| ConfigLoad.VariableWins | quantflow/common/config.py:425-466 | Where the command line is silent every variable's value is read back at its path, whatever the file says. |
| ConfigLoad.NamedWins | quantflow/common/config.py:425-466 | The same from the variable's name: its value is read back at the parts its name is cut into. |
| ConfigLoad.FileRemains | quantflow/common/config.py:425-466 | A path the command line does not settle and no variable meets is read from the file. |
| Segments.RollingSegments | scripts/run_baseline1_challenger.py:122-133 | The rolling loop gives max(0, floor((limit - first end) / step)) contiguous windows, each trained on the 24 months before it. |
| Segments.AnchoredSegments | scripts/run_baseline3_challenger.py:291-301 | The anchored loop likewise, trained from the first row, with its limit one past the end. |
| Segments.WindowNumbers | scripts/run_baseline1_challenger.py:122-133 | The windows are 180 days each, one after the other from the first boundary, and as many as end by the limit; training takes 720 days. |
| Segments.ExactlyOneWindow | scripts/run_baseline1_challenger.py:334-338 | Every stamp from the first boundary to the last is in exactly one forward window, and any other in none. |
| Segments.SliceIs | scripts/run_baseline1_challenger.py:334-338 | On sorted stamps a window's bars are the stretch of them from its beginning on and before its end. |
| Segments.ForwardBarsJoin | scripts/run_baseline1_challenger.py:334-338 | The forward slices, one after another, are the bars between the boundaries: none lost, repeated or moved. |
| Segments.ForwardSlices | scripts/run_baseline1_challenger.py:333-340 | The evaluation loop uses the slices of at least fifty bars, in order. |
| Segments.FewBarsPassedOver | scripts/run_baseline1_challenger.py:333-340 | Passing over short slices loses at most 49 bars each, and with none passed over no bar is lost. |
| Segments.TrainApart | scripts/run_baseline1_challenger.py:131 | No bar is in both ranges of one segment. |
| Segments.SameForwards | scripts/run_baseline3_challenger.py:298-300 | The two loops, each from its own first boundary, evaluate the same windows exactly when neither has one, or the first boundaries are equal and none falls after the rolling limit and on or before the anchored one. |
| Segments.OneWindowMore | scripts/run_baseline3_challenger.py:298-300 | A table and an end one millisecond short of the first boundary give the anchored loop one window and the rolling loop none. |
| Streak.CreditExactly | scripts/paper_day_streak.py:87-108 | A day is credited exactly on path A, without a hard alert, with an ok status or an unlisted status whose preflight exited with zero. |
| Streak.ReasonExactly | scripts/paper_day_streak.py:87-108 | For each reason of a rejection, the summaries that get it. |
| Streak.Ledger.Ingest | scripts/paper_day_streak.py:163-210 | One pass records each credited file under its day with the time of the pass, the credited keys, and at most the first twenty rejections. |
| Streak.RecordedDays | scripts/paper_day_streak.py:163-203 | The days after an ingest are the old days and the credited ones. |
| Streak.DaysExactly | scripts/paper_day_streak.py:163-203 | A day is in the ledger after an ingest exactly when it was there or some readable, dated file of that day is credited. |
| Streak.EntryIs | scripts/paper_day_streak.py:188-201 | Its entry then names the last such file, with that file's summary and the time of the ingest. |
| Streak.RejectedNext | scripts/paper_day_streak.py:174-187 | What each file adds: nothing if it cannot be read, a rejection for want of a date, or one with its day and the reason; each readable file is counted. |
| Streak.DaysAreASet | scripts/paper_day_streak.py:163-203 | Neither order nor repetition of files, nor a second ingest, changes the days. |
| Streak.UncreditedStays | scripts/paper_day_streak.py:169-201 | A day no file credits keeps its entry, or stays absent. |
| Streak.LastCreditStays | scripts/paper_day_streak.py:199-201 | The entry of a credited day is that of the last file crediting it. |
| Streak.FirstCreditKept | scripts/paper_day_streak.py:199-201 | So a day keeps its first credit exactly when the first and the last file crediting it give the same entry. |
| Streak.SecondCreditReplaces | scripts/paper_day_streak.py:199-201 | Two files of one day with different names: the second replaces the first. |
| Streak.EntriesInAnyOrder | scripts/paper_day_streak.py:163-203 | The entries are the same for every order of the files exactly when any two files crediting one day give it the same entry. |
| Streak.IngestAgain | scripts/paper_day_streak.py:163-203 | Ingesting the same files again leaves what ingesting them only then would have left: nothing changes but the time of ingest of the days they credit. |
| Streak.StreakStats | scripts/paper_day_streak.py:213-257 | The loop terminates with the maximal run of credited days ending at its cursor; counts, window lists and both targets follow from it. |
| Streak.StreakWithinCount | scripts/paper_day_streak.py:226-240 | The streak never exceeds the credited days. |
| Streak.WindowSplits | scripts/paper_day_streak.py:231-234 | Each day of the window is listed once, as present or as missing. |
| Streak.TargetIsFullWindow | scripts/paper_day_streak.py:218-240 | With today credited the target is met exactly when the window has no missing day. |
| Streak.TargetAgainstWindow | scripts/paper_day_streak.py:218-240 | In general they agree exactly when today is credited, there is no target, or one of the target's days up to the last credited one is not credited. |
| Streak.StaleStreakMeets | scripts/paper_day_streak.py:218-240 | A run of the target's length that ended any number of days ago still meets it, with today missing. |
| Streak.CreditingToday | scripts/paper_day_streak.py:218-228 | Crediting today adds one to a streak that reached yesterday and restarts any other at one. |

## Left out

- Network, parquet, DuckDB, JSON and YAML reading and writing, logging, subprocesses and command lines. Servers, the
  file tree and the environment are values instead; which partitions the store can date is a set.
- Floating-point rounding: prices, equity, returns, delays and clocks are reals.
- Moves across file systems, which copy and then delete: a move is one step. So is a write, but for the torn write of
  ArchiveSecond.TornWrite, after which the run is dead.
- ArchiveManifest.ManifestAhead: a write is one step there, so the point inside the last write is not among its crash
  points; ArchiveSecond.TornWrite states what holds there.
- ArchiveManifest.ManifestRestores: likewise.
- Digit characters other than 0 to 9 in partition names, and the parsing of session file names and dates: a file's
  day is given.
- The volatility target of the overlay: its ratio to the rolling volatility is an input, since that volatility
  fills its first values backwards and reads the current bar. Causality is stated with the lever off.
- OverlayThrottle.RunBounded: stated for reduce_off mode, where the exposure stays between cash and holding; in
  add_on mode the loop is modelled, but one bar may ruin the account.
- OverlaySim.Simulate: on price series without a zero, by which the original divides into infinities.
- OverlaySim.SimulateBetaOverlay: likewise on price series without a zero.
- Cleaner.CleanOhlcv: the sort's choice among the sorted arrangements is an input, and the conversion of stamps and the
  column checks are not modelled: tables have all columns.
- ConfigMerge.DeepMerge: on dictionaries as values; ConfigDicts.DeepMerge is the same on objects. There the nested
  dictionaries have no cycle, and a section that occurs twice in the base is copied twice.
- Segments.RollingSegments: on tables with at least one row, since the original raises on an empty one; the same
  holds of the anchored loop.
- The asyncio objects the bus starts and their done-callbacks; what it starts is counted as a multiset of handlers.
- EventBus.Bus.RunActions: a handler is a script of bus operations, so a handler that decides by what it reads is
  modelled by a script that differs from call to call.
- BusAborts.PublishCutExactly: for handlers that publish again, what aborts is not read off their bodies, since it
  depends on what is registered when they run; BusAborts.PublishCutWhere is the statement there.
- The open-interest history, whose cursor is an opaque token of the server, and its conversion to dollars.
- The payload formats of the exchange, and rows whose number cannot be parsed other than as missing values.
- The inference of a timeframe's period, which reads the whole index: it is given. The fallback of the aligner,
  which aligns nothing.
- The funding hook of the replay, which hands over one row's values per bar.
- The in-place update of nested dictionaries: setting a path rebuilds the dictionaries along it.
- Parsing of environment values: the parser is an input of the loader. Lower-casing is that of ASCII letters.
- Validation of the merged configuration, path resolution and the redaction of secrets.
- The evaluation of segments, their adjudication and every report written.
- The baseline-snapshot flag of ledger entries, and reading the ledger file with its fallbacks for a missing or
  ill-shaped one. The clock is read once a pass, not once an entry.
