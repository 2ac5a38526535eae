# Research platform: ledger, cost path, solver and driver proofs

A Dafny model of the exact-arithmetic core of the platform's research scripts and of the drivers
around it. Prices, cash, weights and p-values are exact reals; the 1e-10 dust rule of the ledger,
every error branch and every branch order are kept. Code that the scripts write as loops over
mutable state is modelled as methods and classes, each proved against a function of its inputs; the
results below are then proved about those functions, for all inputs, all runs or all reachable states.

Check everything with `dafny verify dfyconfig.toml`.

| Files | Subject |
|---|---|
| `Ledger`, `Replay`, `Allocation`, `Targets`, `Conservation`, `Attribution`, `EventLog`, `Reporting` | the day-by-day ledger: state, safety, greedy cash, targets met, conservation of profit, the trade log, the reported rows |
| `Ranking`, `Causality`, `Study` | the monthly momentum ranking, the absence of look-ahead, and the study end to end |
| `CostPath`, `CostRefinement` | the closed-form cost path, its inverse, and its refinement of the ledger |
| `CellRun` | the crash and resume protocol of a calibration cell |
| `LinearAlgebra`, `Covariance`, `EqualRisk`, `RiskWeights`, `RiskCaps` | the equal-risk solver, its final check, and the caps |
| `Holm` | the step-down p-value adjustment |
| `Backfill` | the quota-bounded download driver over many runs |
| `Overlay`, `Shards`, `Quintiles` | identity overlay, sharded test verdicts, quantile buckets |
| `Reals`, `Permutations`, `SymbolSums`, `Calendar` | shared vocabulary: arithmetic, rearrangements and stable sorting, sums over symbols, dates |

Conventions. Symbols, tickers, entities and test node ids are numbers: their position in string
order. A date is a month ordinal and a day. Square root and logarithm are parameters: the root is
only assumed to be non-negative and to square back, the logarithm only to lie under its tangent at one
and to turn products into sums. Fee rates, opening cash and the universe are parameters of the ledger; `Study` puts in the study's own.
`hide` statements keep definitions out of proofs that do not need them.

Where a property of the scripts holds only under a condition, the condition is proved exact:

- the ledger's attribution adds up if and only if the dust rule discards nothing but exact zeros
  (`Attribution.AttributionConserves`); otherwise the gap is exactly the value discarded
  (`Conservation.DayResidual`);
- the closed-form cost path equals the replayed ledger if and only if no purchase is below the dust
  threshold (`CostRefinement.ClosedFormRefinesLedger`); `CostRefinement.DustExample` is a concrete
  pair of sessions where both fail;
- a rebalancing puts every symbol exactly on its target if and only if the missing value is paid for by
  cash and sales, and no target is dust (`Targets.TargetsMet`);
- a year's attributed profit equals its change in net asset value if and only if no day of that year
  discarded dust; otherwise the gap is that year's residuals (`Attribution.YearAttribution`);
- the canonical symbol is the same at both ends of a rename link if and only if the link is not on a
  cycle of two or more symbols of the rename map (`Overlay.CanonicalAlongLink`, with the concrete case
  `Overlay.MutualRenamesSplit`).

## Model

| member | source | states |
|---|---|---|
| Calendar.MonthBefore | scripts/audit_study_return.py:46-50 | going back by an offset yields a valid month that many ordinals earlier, across years |
| Calendar.DayBeforeIsPrevious | scripts/calibrate_admission_semantics.py:163 | the calendar day before a date is a day, earlier, and no day lies between |
| Calendar.MonthLengths | scripts/calibrate_admission_semantics.py:163 | month lengths, with the leap-year rules of four, a hundred and four hundred years |
| Calendar.YearOfMonth | scripts/audit_study_return.py:46-50 | the year of a date is the year of its month |
| Allocation.RunUnlevered | scripts/audit_study_return.py:124-212 | on every run over positive prices, cash is never negative, every position is at least the dust threshold, and exposure lies in [0, 1] whenever net asset value is positive |
| Allocation.ExecuteAllLongOnly | scripts/audit_study_return.py:142-163 | filling any order list keeps a book long-only and unlevered |
| Allocation.RequestFits | scripts/audit_study_return.py:136-140 | a sell never asks for more than is held and every order asks for a positive quantity |
| Allocation.SellFilled | scripts/audit_study_return.py:142-152 | every sell of a rebalancing is filled in full at its turn |
| Allocation.DayOrdersShape | scripts/audit_study_return.py:135-141 | orders are sells then buys, alphabetical within each side, at most one a symbol |
| Allocation.BuyWaterfall | scripts/audit_study_return.py:142-163 | cash after a list of buys is max(0, cash - need), and the unfilled need is max(0, need - cash) |
| Allocation.PartialFillIsLast | scripts/audit_study_return.py:145-152 | a buy that is cut leaves exactly zero cash and every later buy gets nothing |
| Allocation.GreedyAllocation | scripts/audit_study_return.py:132-166 | the whole greedy allocation of a rebalancing day: full sells, at most one cut buy, exact shortfall |
| Targets.SymbolAfter | scripts/audit_study_return.py:132-166 | in a rebalancing a symbol at or above its target weight of the value at the open ends exactly on it, one below moves up to it at most, and on a funded day every one reaches it; then the dust rule applies |
| Targets.TargetsMet | scripts/audit_study_return.py:132-166 | every symbol held or targeted ends exactly on its target weight if and only if cash and the proceeds of the excess cover the cost of the missing value, and no target is dust |
| Targets.CashAfter | scripts/audit_study_return.py:132-166 | cash after a rebalancing is max(0, cash + proceeds - cost), from weights, holdings and prices alone |
| Conservation.ExecuteIsApply | scripts/audit_study_return.py:154-166 | the book after execution is the fold of the emitted trades |
| Conservation.ApplyTradeConserves | scripts/audit_study_return.py:110-121 | one trade lowers value at the open by exactly its commission, its slippage and the dust it discards |
| Conservation.ApplyAllConserves | scripts/audit_study_return.py:110-166 | a day's trades lower value at the open by exactly the symbols' summed costs and discarded dust |
| Conservation.DayResidual | scripts/audit_study_return.py:168-205 | a day's attribution residual is exactly minus the value that leaks through discarded dust |
| Attribution.LeakSigns | scripts/audit_study_return.py:119-120 | the leak of a day is never negative and is zero exactly when no trade of the day discards a non-zero remainder |
| Attribution.NothingDroppedSums | scripts/audit_study_return.py:119-120 | for fills of a long-only book, no trade discards a non-zero remainder exactly when every symbol's discards sum to zero |
| Attribution.AttributionConserves | scripts/audit_study_return.py:168-210 | over any run residuals are never positive, attributed profit is at least the change in value, and both are exact if and only if no dust was discarded |
| Attribution.CleanRunSolvent | scripts/audit_study_return.py:167-206 | without discarded dust net asset value stays positive, so no division of the replay can fail |
| Attribution.SymbolAttribution | scripts/audit_study_return.py:330-343 | profit by symbol sums to the total profit if and only if no dust was discarded |
| Attribution.YearAttribution | scripts/audit_study_return.py:344-362 | over any run with ascending dates, a year's reported change in net asset value less its attributed profit is the sum of its residuals, never positive, and zero if and only if no day of that year discarded dust |
| Attribution.YearChangeStep | scripts/audit_study_return.py:345-358 | ascending dates make a year one block, so the year's row profits telescope |
| EventLog.RunPrefix | scripts/audit_study_return.py:128-212 | rows, trades and contributions of the first k days are a prefix of the whole run's |
| EventLog.LogRebuildsBook | scripts/audit_study_return.py:301-312 | folding the run's own trades by date from opening cash gives the final book |
| EventLog.LogRebuildsEveryDay | scripts/audit_study_return.py:309-317 | on every date the trade log alone rebuilds the reported cash, holdings and net asset value |
| Reporting.RowReports | scripts/audit_study_return.py:189-209 | each daily row shows the book's cash, holdings at the close, their sum, its change, and the return and exposure that reproduce it, absent exactly where they would divide by zero |
| Reporting.DayReports | scripts/audit_study_return.py:168-188 | each day adds one line for each symbol held before or after its trades: overnight from the last close, intraday on the new holding, and its own costs |
| Replay.SellsFirstSorts | scripts/audit_study_return.py:141 | ordering by side is a rearrangement with every sell ahead of every buy |
| Replay.BuildOrders | scripts/audit_study_return.py:136-140 | the order loop computes the specified orders |
| Replay.Attribute | scripts/audit_study_return.py:168-185 | the attribution loop over accumulated costs computes the specified contributions and their total |
| Replay.Portfolio.ApplyTrade | scripts/audit_study_return.py:110-121 | editing the holdings in place is the specified trade |
| Replay.Portfolio.ApplyTrades | scripts/audit_study_return.py:311-312 | applying a list in place is the fold of its trades |
| Replay.Portfolio.Execute | scripts/audit_study_return.py:142-166 | the fill loop in place computes the specified book and trades, and its accumulators are the per-symbol costs |
| Replay.Portfolio.Rebalance | scripts/audit_study_return.py:132-166 | a rebalancing in place is the specified one |
| Replay.ReplayLedger | scripts/audit_study_return.py:124-212 | the replay returns the specified run, or the division error of the first day whose net asset value is zero |
| Replay.RebuildNavs | scripts/audit_study_return.py:301-313 | the rebuild loop returns the folded book and its marked value on every date |
| Replay.ReplayThenRebuild | scripts/audit_study_return.py:267-317 | replaying and then rebuilding from the emitted trades agrees on every date |
| Replay.PeakIsMaximum | scripts/audit_study_return.py:218-220 | the running peak is the largest value so far |
| Replay.MaxDrawdown | scripts/audit_study_return.py:218-221 | the one-pass drawdown is the largest fall between any earlier and any later value, and is attained |
| Ranking.FindTransitions | scripts/audit_study_return.py:55-61 | one pass over adjacent dates finds the specified month ends and transitions |
| Ranking.MonthEndsAre | scripts/audit_study_return.py:55-59 | on an ascending calendar the month ends are the last dates of exactly the months that have ended inside it |
| Ranking.TransitionsAre | scripts/audit_study_return.py:58-61 | the transitions are exactly the adjacent dates of different months whose later one lies inside the study |
| Ranking.CollectScores | scripts/audit_study_return.py:67-78 | the scoring loop computes the specified scores |
| Ranking.RankFromPrices | scripts/audit_study_return.py:53-107 | the ranking program computes the specified periods, with their compared month ends, and the schedule |
| Ranking.Ranked | scripts/audit_study_return.py:79 | scores are rearranged by descending score, then symbol |
| Ranking.ScoresAreEligible | scripts/audit_study_return.py:67-78 | exactly the symbols with all thirteen month ends are scored |
| Ranking.RankedRows | scripts/audit_study_return.py:63-106 | each ranked row is an eligible symbol's, records its closes two and thirteen months back, and (score + 1) times the second is the first; every eligible symbol has one |
| Ranking.SelectionIsTopFive | scripts/audit_study_return.py:78-81 | with five or more eligible symbols the selection is the five that grew most between the two month ends, compared on closes, ties alphabetical; with fewer it is empty |
| Causality.SignalReadsThePast | scripts/audit_study_return.py:55-66 | every month end a signal may read lies at or before the signal date |
| Causality.SignalsCausal | scripts/audit_study_return.py:63-106 | tables agreeing through d give identical rankings for signals dated at or before d |
| Causality.SchedulesCausal | scripts/audit_study_return.py:81-91 | and identical schedule entries for trades at or before d |
| Causality.NoLookAhead | scripts/audit_study_return.py:53-212 | two studies whose tables agree through d have identical rows, books, trades and contributions through d |
| Causality.StudyDaysOk | scripts/audit_study_return.py:246-267 | complete positive bars imply every precondition of the ledger results |
| Study.StudyLedger | scripts/audit_study_return.py:124-212 | at the study's opening cash and rates, over any complete positive table, every row is unlevered, has no positive residual and is rebuilt by the trade log, and profit adds up if and only if no dust was discarded |
| Study.DayTargets | scripts/audit_study_return.py:81-91 | on a replayed date the target is a fifth for each symbol selected by the period that trades on it, nothing for others, and there is none without such a period |
| Study.StudyInvests | scripts/audit_study_return.py:53-166 | on such a date the ledger's book ends with exactly a fifth of its value at the open in each selected symbol and nothing else, if and only if cash and sales pay for it and no target is dust |
| Study.EvaluationDatesAre | scripts/audit_study_return.py:246-267 | the replayed dates are exactly the calendar dates inside the study |
| CostPath.FactorPositive | scripts/calibrate_admission_semantics.py:101-111 | every session factor lies in (0, 1] |
| CostPath.ScenarioRates | scripts/calibrate_admission_semantics.py:93-104 | each scenario's commission and slippage in basis points, or the first failing check |
| CostPath.TradeFactors | scripts/calibrate_admission_semantics.py:101-111 | stepping through the array sets entry, switch and other factors as specified, or reports the parameter error |
| CostPath.ExactCostPath | scripts/calibrate_admission_semantics.py:114-138 | the array program returns the specified path, or the error of the first failing check |
| CostPath.NetAboveIffGrossAbove | scripts/calibrate_admission_semantics.py:118-120 | the error test on net returns is a test on gross returns alone |
| CostPath.GrossForNet | scripts/calibrate_admission_semantics.py:141-146 | the compensated gross returns produce exactly the wanted net returns and are above -1 |
| CostPath.CompensateThenCharge | scripts/calibrate_admission_semantics.py:114-146 | compensating and then charging base costs returns the original net returns without error |
| CostPath.GrossIsDetermined | scripts/calibrate_admission_semantics.py:118-146 | no other gross path produces the same net returns |
| CostPath.NavPositive | scripts/calibrate_admission_semantics.py:121-131 | net asset value stays positive, so the last error check never fires |
| CostPath.StressOrdering | scripts/calibrate_admission_semantics.py:93-138 | on one gross path a larger cost multiplier gives a strictly smaller value on every session, under both cost models |
| CostRefinement.ArtificialPrices | scripts/calibrate_admission_semantics.py:149-183 | the generator returns the specified sessions and decisions, or an error exactly for a length mismatch or a return at or below -1 |
| CostRefinement.SignalsPrecede | scripts/calibrate_admission_semantics.py:157-167 | every decision is dated before the session it trades and at or after every earlier session |
| CostRefinement.SignalsMatchSessions | scripts/calibrate_admission_semantics.py:157-170 | the decisions are exactly those of the sessions that carry a target, with that target, on multiples of the frequency |
| CostRefinement.EntryDay | scripts/audit_study_return.py:132-166 | the first session spends all cash at exactly the entry factor |
| CostRefinement.SwitchDay | scripts/audit_study_return.py:132-166 | a switch sells everything and buys with all proceeds at exactly the switch factor and notional |
| CostRefinement.SessionRefines | scripts/calibrate_admission_semantics.py:114-130 | one ledger session produces the closed form's value, notional and commission |
| CostRefinement.LedgerRefines | scripts/calibrate_admission_semantics.py:114-138 | so does every prefix of the run while no purchase is dust |
| CostRefinement.ClosedFormRefinesLedger | scripts/calibrate_admission_semantics.py:101-183 | ledger and closed form agree on every session if and only if no purchase is below the dust threshold |
| CostRefinement.DustExample | scripts/audit_study_return.py:119-120 | a concrete pair of sessions in which the ledger loses everything to the dust rule |
| CostRefinement.PathAndSessions | scripts/calibrate_admission_semantics.py:114-183 | the same about the two programs: value, turnover and commission |
| CellRun.CellFiles.CountTrailingFailures | scripts/calibrate_admission_semantics.py:756-760 | the reversed scan counts the failures at the end of the log |
| CellRun.CellFiles.RunCell | scripts/calibrate_admission_semantics.py:747-807 | one run on the files is the specified run, with its counter in place of a rescan |
| CellRun.AdvanceToGoal | scripts/calibrate_admission_semantics.py:763-785 | from any point of the uninterrupted run, w more writes reach the point w records on, or its end |
| CellRun.RunOnTrack | scripts/calibrate_admission_semantics.py:747-807 | from every reachable store a run stays on the uninterrupted log and never reports a wrong count, a foreign row or a changed summary |
| CellRun.ResumeEqualsUninterrupted | scripts/calibrate_admission_semantics.py:686-807 | after any history of runs and crashes, finishing leaves the same files and outcome as one uninterrupted run |
| CellRun.LogIsPrefix | scripts/calibrate_admission_semantics.py:686-709 | at every moment the log is a prefix of the uninterrupted log and a written summary is its summary |
| CellRun.StopIsFinal | scripts/calibrate_admission_semantics.py:756-762 | once three failures end the log, no later run writes anything |
| CellRun.StoppedIs | scripts/calibrate_admission_semantics.py:755-762 | a log stops the cell exactly when its last three attempts failed |
| CellRun.GoalIsFirst | scripts/calibrate_admission_semantics.py:763-785 | the uninterrupted run goes on to the first such stop or to five hundred rows |
| CellRun.LogHoldsEvaluations | scripts/calibrate_admission_semantics.py:763-785 | row i of every reachable log is this cell's evaluation of replicate i |
| CellRun.BadCacheRefused | scripts/calibrate_admission_semantics.py:686-709 | a log of the wrong length or with a foreign or misplaced row is refused and nothing is written; a changed summary is reported |
| CellRun.SourceGuards | scripts/calibrate_admission_semantics.py:747-789 | a changed source stops a run before it reads anything and before it writes a summary |
| Covariance.ShrunkCovarianceForm | scripts/phase3_etf_research.py:138-145 | the shrunk covariance of any window is, as a quadratic form, at least a tenth of its diagonal part |
| Covariance.CovarianceSymmetric | scripts/phase3_etf_research.py:141 | the sample covariance is symmetric |
| Covariance.CovarianceFormula | scripts/phase3_etf_research.py:141 | T - 1 times an entry is the sum of products of returns less the product of their sums over T |
| Covariance.CovarianceShiftInvariant | scripts/phase3_etf_research.py:141 | raising an asset's returns by a constant changes no entry |
| Covariance.VarianceVanishes | scripts/phase3_etf_research.py:141-144 | a variance is zero exactly when the return never changes |
| Covariance.ShrunkEntries | scripts/phase3_etf_research.py:145 | shrinkage keeps variances and nine tenths of covariances |
| EqualRisk.RootIsPositiveRoot | scripts/phase3_etf_research.py:157-164 | both branches of the update are a positive root of the coordinate's quadratic |
| EqualRisk.PositiveRootUnique | scripts/phase3_etf_research.py:151-153 | it is the only positive root |
| EqualRisk.SufficientDecrease | scripts/phase3_etf_research.py:151-164 | an update keeps the point positive, makes the asset's risk exactly its budget, and lowers the objective by at least half the weighted squared step |
| EqualRisk.SweepDescends | scripts/phase3_etf_research.py:155-164 | a sweep lowers the objective by at least the sum of its gains |
| EqualRisk.SweepsNeverRise | scripts/phase3_etf_research.py:155-164 | no sweep raises the objective, and one that does not lower it is at exact equal risk |
| EqualRisk.GainsAddUp | scripts/phase3_etf_research.py:155-164 | the gains of any number of sweeps together are at most the fall of the objective |
| EqualRisk.EqualRiskIsMinimum | scripts/phase3_etf_research.py:151 | from a point of exact equal risk, any move to a positive point raises the objective by at least half the quadratic form of the move |
| RiskWeights.PreparedMinimum | scripts/phase3_etf_research.py:141-151 | for the matrix of any return window the exact equal-risk point is the unique minimum: every other positive vector has a larger objective and no equal risk |
| RiskWeights.GainsBounded | scripts/phase3_etf_research.py:141-164 | on any return window the steps of all sweeps, however many, stay under a bound known from the matrix, the budgets and the start |
| RiskWeights.GainsBelowMinimum | scripts/phase3_etf_research.py:151-164 | and under the distance of the starting objective from the equal-risk objective |
| RiskWeights.SweepInPlace | scripts/phase3_etf_research.py:156-164 | updating the vector in place is the specified sweep |
| RiskWeights.EqualRiskWeights | scripts/phase3_etf_research.py:134-185 | the solver loop returns the specified weights or error |
| RiskWeights.ConvergedFractions | scripts/phase3_etf_research.py:165-173 | when the stopping test passes every risk fraction is within 2e/(1 - n e) of 1/n, for e = 1e-10 |
| RiskWeights.ConvergenceImpliesCheck | scripts/phase3_etf_research.py:165-175 | then the mismatch error cannot fire for up to a billion assets, and the weights are positive and sum to one |
| RiskWeights.EqualRiskOutcome | scripts/phase3_etf_research.py:134-185 | on every window the program returns positive weights that sum to one, with a reported error that is the largest gap of a risk fraction from 1/n, or one of its three input and convergence errors |
| RiskWeights.UnusableWindow | scripts/phase3_etf_research.py:136-144 | a window is rejected exactly for its length or a variance not above 1e-16, so always for a constant return |
| RiskWeights.SolvedAtFirst | scripts/phase3_etf_research.py:155-169 | the solver returns the first sweep's point that passes the stopping test, or fails when none of ten thousand does |
| RiskWeights.PostCheck | scripts/phase3_etf_research.py:172-175 | the post-check fails exactly when some risk fraction is more than 1e-6 from its budget, and otherwise returns weights, fractions and sweeps |
| RiskWeights.StoppingTest | scripts/phase3_etf_research.py:165-167 | the test compares each asset's contribution with its budget at 1e-10 |
| RiskWeights.SharesOfVariance | scripts/phase3_etf_research.py:171-172 | a risk fraction is the asset's share of the portfolio variance under the unscaled shrunk covariance |
| RiskWeights.PreparedMeanOne | scripts/phase3_etf_research.py:147 | rescaling makes the mean variance one |
| RiskWeights.StartCarriesBudget | scripts/phase3_etf_research.py:154 | the start gives each asset alone exactly its budget of risk |
| RiskWeights.WeightsProportional | scripts/phase3_etf_research.py:170 | normalising keeps the proportions of the solution |
| RiskCaps.ScaleInPlace | scripts/phase3_etf_research.py:195 | the in-place product scales every weight |
| RiskCaps.ConstrainedRiskWeights | scripts/phase3_etf_research.py:188-204 | the program returns the specified portfolio or the solver's error |
| RiskCaps.ScaleBounds | scripts/phase3_etf_research.py:193-194 | the scale lies in (0, 1] and hits the volatility target exactly when it binds |
| RiskCaps.PortfolioWithinLimits | scripts/phase3_etf_research.py:188-204 | each final weight is the scale times the base weight capped at 0.25; cash is the non-negative rest; predicted volatility is that of the final weights, at most 0.1, and exactly 0.1 whenever the scale is below one |
| Holm.HolmAdjusted | scripts/phase3_etf_research.py:342-351 | the program rejects an incomplete family, blanks a family with a missing value, and otherwise returns the running maxima |
| Holm.AdjustmentIsStepDown | scripts/phase3_etf_research.py:347-350 | for every level below one, an adjusted value is at or below it exactly when p times the number still standing is, at its and every earlier position: the step-down rejections |
| Holm.RunningIsMaximum | scripts/phase3_etf_research.py:347-350 | an adjusted value is the largest of zero and min(1, p (m - j)) up to its position, and attained |
| Holm.AdjustedMonotone | scripts/phase3_etf_research.py:348-350 | adjusted values are monotone in the raw values, so ties are equal |
| Holm.AdjustedBounds | scripts/phase3_etf_research.py:348-350 | they lie between the raw value and min(1, m p) |
| Holm.OrderIndependent | scripts/phase3_etf_research.py:348-350 | they do not depend on the order of submission, ties included |
| Backfill.Driver.Get | scripts/probe_tiingo_backfill.py:143-183 | a request is refused at the budget and otherwise counted however it ends |
| Backfill.PriceReplies | scripts/probe_tiingo_backfill.py:91-183 | each upstream reply to a price request: not-found writes a tombstone, rows write a file, no rows raise the streak, quota and unclassified errors change nothing and stop the run, passing trouble is recorded and the run goes on |
| Backfill.MetaReplies | scripts/probe_tiingo_backfill.py:91-183 | each reply to the metadata request: it writes metadata at most, and leads on, to a schema error, or to the end of the run |
| Backfill.MetaOnlyReplies | scripts/probe_tiingo_backfill.py:301-322 | the same in a metadata-only run |
| Backfill.RefusalEndsRun | scripts/probe_tiingo_backfill.py:91-183 | a refused request is the last of its run, which is reported as stopped |
| Backfill.RunLeaves | scripts/probe_tiingo_backfill.py:401-432 | an escaping exception loses the run's streak counts and nothing else that was written |
| Backfill.SymbolRequests | scripts/probe_tiingo_backfill.py:323-391 | which requests a symbol costs, in which order, and what ends it early |
| Backfill.SkippedReplies | scripts/probe_tiingo_backfill.py:301-333 | a settled symbol is recorded as skipped at no request |
| Backfill.Driver.FetchMeta | scripts/probe_tiingo_backfill.py:335-350 | absence or transient trouble with metadata does not end the symbol |
| Backfill.Driver.FetchPrices | scripts/probe_tiingo_backfill.py:351-391 | each outcome of a price request writes exactly its file, tombstone, streak and record |
| Backfill.Driver.FetchMetaOnly | scripts/probe_tiingo_backfill.py:301-322 | each outcome of a metadata-only request writes exactly its file and record, and an uncaught one aborts the run |
| Backfill.Driver.RunSymbols | scripts/probe_tiingo_backfill.py:296-404 | the symbol loop is the specified run, in price mode and in metadata-only mode |
| Backfill.RunWithinBudget | scripts/probe_tiingo_backfill.py:143-155 | no run exceeds its budget and the reported count is the number of requests |
| Backfill.HistorySafe | scripts/probe_tiingo_backfill.py:301-391 | over any runs of either mode and any replies no symbol has both file and tombstone; each tombstone rests on a price request answered by HTTP 404 or an explicit not-found text, each file on one answered with rows |
| Backfill.SettledIsFree | scripts/probe_tiingo_backfill.py:301-333 | a symbol with a file or a tombstone is never priced again, and price-mode runs spend no request on it at all |
| Backfill.EverySymbolRecorded | scripts/probe_tiingo_backfill.py:296-404 | a run that is not halted records every requested symbol in order |
| Overlay.FindCanonical | scripts/prepare_phase2_wide_inputs.py:148-153 | the loop terminates on every map and returns the specified symbol |
| Overlay.CanonicalOnCycle | scripts/prepare_phase2_wide_inputs.py:148-153 | a renamed symbol is its own canonical symbol if and only if a loop of links leads back to it |
| Overlay.CanonicalAlongLink | scripts/prepare_phase2_wide_inputs.py:148-153 | both ends of a link have one canonical symbol if and only if the link does not lie on a cycle of two or more symbols of the rename map |
| Overlay.CanonicalAlongChain | scripts/prepare_phase2_wide_inputs.py:148-153 | the canonical symbol is constant along every chain that meets no such cycle |
| Overlay.AcyclicLineage | scripts/prepare_phase2_wide_inputs.py:148-153 | without cycles it is the end of the chain and constant along it |
| Overlay.MutualRenamesSplit | scripts/prepare_phase2_wide_inputs.py:148-153 | two renames of each other are not unified |
| Overlay.BuildOverlay | scripts/prepare_phase2_wide_inputs.py:137-203 | the program computes the specified rows, and the actions group by group |
| Overlay.GroupsAre | scripts/prepare_phase2_wide_inputs.py:140-146 | a symbol is linked exactly when some rename mentions it |
| Overlay.LastMentionLinks | scripts/prepare_phase2_wide_inputs.py:140-146 | and its link is to the successor of the last such rename |
| Overlay.RelabelsIs | scripts/prepare_phase2_wide_inputs.py:155-172 | a row is relabelled exactly when its ticker is linked and, if all renames carry sources, its entity is listed for the ticker |
| Overlay.LabelsKeep | scripts/prepare_phase2_wide_inputs.py:173-175 | relabelling changes nothing but the entity, and keeps the source entity beside it |
| Overlay.LineageMerges | scripts/prepare_phase2_wide_inputs.py:148-176 | rows of one month one rename apart, off any cycle, get one lineage |
| Overlay.ActionsListed | scripts/prepare_phase2_wide_inputs.py:177-202 | the listed actions rearrange those of the removed rows, by month and then entity |
| Overlay.ActionsName | scripts/prepare_phase2_wide_inputs.py:190-202 | each action names a removed row and the row kept for its month and entity, and every removed row has one |
| Overlay.OneKeptRow | scripts/prepare_phase2_wide_inputs.py:178-193 | exactly one row of each key is kept: in effect first, then alphabetical, then earliest |
| Overlay.KeptInEffect | scripts/prepare_phase2_wide_inputs.py:178-189 | the kept row is still in effect on the snapshot if any is; among equals it has the first ticker, then the first position |
| Overlay.OverlayDeduplicates | scripts/prepare_phase2_wide_inputs.py:174-203 | one row a key, every relabelled key survives, and rows plus actions account for the input |
| Shards.ReadCases | scripts/backend_non_postgres_gate.py:568-591 | the case loop returns the first error, or the counts and skipped ids |
| Shards.ValidateJunit | scripts/backend_non_postgres_gate.py:536-637 | the check of a result file returns the specified verdict or the first failing check, from its size to its counts |
| Shards.ReadIs | scripts/backend_non_postgres_gate.py:544-560 | which files are read, and which error the others get |
| Shards.ValidDocument | scripts/backend_non_postgres_gate.py:561-637 | in a valid document no test case has an error or failure child, the skipped tests are exactly the expected ones, and all others passed |
| Shards.DeclaredCountsRight | scripts/backend_non_postgres_gate.py:593-622 | every count that the root or a suite of a valid document declares is right |
| Shards.SortAgrees | scripts/backend_non_postgres_gate.py:624-627 | comparing sorted skip lists is comparing them as rearrangements |
| Shards.PartitionExactness | scripts/backend_non_postgres_gate.py:640-676 | the exactness check can fail only when every collected test is an inner one |
| Shards.PartitionIs | scripts/backend_non_postgres_gate.py:640-676 | the general share is every collected test that is not inner, each once |
| Shards.ShardingPreservesVerdict | scripts/backend_non_postgres_gate.py:536-814 | two valid shards combine exactly when their sizes match, and then any one document with the test cases of both, in any order and nesting, gets the combined verdict unless a count it declares itself is wrong |
| Shards.MergeHoldsBoth | scripts/backend_non_postgres_gate.py:593-622 | wrapping both shards in one root is such a document, and all its declared counts are right |
| Shards.SkipsSplit | scripts/backend_non_postgres_gate.py:1681-1693 | splitting the declared skips over the shards loses and duplicates none |
| Quintiles.AssignQuintiles | scripts/phase2_public_price_pilot.py:142-148 | every row gets the bucket of its rank by value, entity and symbol, and none without a value or with fewer than five valued rows |
| Quintiles.BucketRange | scripts/phase2_public_price_pilot.py:147 | bucket k is the block of positions between consecutive fifths rounded up |
| Quintiles.BucketSizes | scripts/phase2_public_price_pilot.py:146-147 | every bucket holds a fifth rounded down or up, and is not empty for five rows or more |
| Quintiles.BucketsCover | scripts/phase2_public_price_pilot.py:146-147 | the five buckets cover all rows |
| Quintiles.BucketsMonotone | scripts/phase2_public_price_pilot.py:145-147 | a row with a higher value, or an equal value and later entity or symbol, never has a lower quintile |
| Quintiles.RowOrderIrrelevant | scripts/phase2_public_price_pilot.py:145-147 | rearranging the rows of a month with distinct keys changes no row's quintile |

## Left out

- Floating-point rounding, non-finite values and library numerics: values are exact reals, so the finiteness checks never fail.
- String ordering and parsing: symbols, dates and node ids enter as numbers in string order, prices as tables, XML as parsed elements.
- The ledger's holding snapshots, the minimum-quantity column, and the metrics other than drawdown: reporting columns read off the modelled state.
- The comparison of a replay with a saved study: equality of recorded numbers.
- CellRun.CellFiles.RunCell: digests are part of the summary function, and every write is one atomic step.
- The recovery of an interrupted engine directory: file renames and digests around an engine that is not part of this model.
- Backfill.Driver.RunSymbols: request pacing and the text of messages are not modelled, and files are sets of symbols.
- The per-bucket return statistics of a month (scripts/phase2_public_price_pilot.py `month_statistics`): averages of library data.
- RiskWeights.EqualRiskOutcome: it assumes at most a billion assets, where the tolerance argument needs no refinement.
- Bootstrap, deflated ratios and other statistics whose definitions live in libraries or in random draws.
- The platform backtest engine and the modules behind the scripts: not part of this model.
