# A verified model of a sports-market research system

The system watches live sports events, prices prediction-market quotes against them, sizes and
simulates paper bets, and scores its own forecasts. This project models the algorithms and protocols
on which its numbers and its safety rest, and proves what they promise.

| file | models |
|---|---|
| `RealSums.dfy`, `Ordering.dfy`, `Options.dfy` | finite sums, stable sorting and its uniqueness, an option type |
| `Isotonic.dfy`, `Corp.dfy` | pool-adjacent-violators and the exact Brier decomposition built on it |
| `LinearSolver.dfy` | in-place Gauss-Jordan elimination with partial pivoting |
| `Scenarios.dfy`, `ScenarioLaw.dfy` | the exact joint outcome distribution of correlated candidates |
| `Barrier.dfy`, `BarrierLoop.dfy`, `BarrierPath.dfy`, `BarrierObjective.dfy`, `BarrierGap.dfy`, `BarrierBound.dfy` | the log-barrier problem, the damped Newton loop that stays inside it, its objective, and what its stopping test is worth |
| `JointKelly.dfy`, `KellyMeaning.dfy`, `SizingGap.dfy` | single-bet and joint Kelly sizing, in the candidates' own numbers, and the worth of the gap it reports |
| `Linkage.dfy`, `EventMapping.dfy`, `MappingLaws.dfy`, `MappingReasons.dfy`, `MappingOrder.dfy` | greedy one-to-one linkage with an ambiguity margin, the decisions made from it, and what those decisions promise |
| `Execution.dfy`, `Sale.dfy`, `FillOutcome.dfy` | buying and selling through a depth of price levels under a concave fee, and when an order is filled |
| `Accounts.dfy`, `Placement.dfy`, `JointSizing.dfy`, `AccountRuns.dfy`, `AccountBook.dfy` | the paper accounts: grading, closing, exposure caps, joint stakes, whole runs, and the mutable store |
| `Settlement.dfy`, `Entry.dfy`, `EntryTrace.dfy`, `JointMeaning.dfy` | what closing pays, which bets a call opens for how much, and what is sized jointly, in the rows' own numbers |
| `Lifecycle.dfy`, `LifecycleSteps.dfy`, `LifecycleRuns.dfy`, `LifecycleEviction.dfy`, `LifecycleProgress.dfy`, `LifecycleWitnesses.dfy` | record, finalization, eviction and deletion interleaved around per-event locks |
| `OrderBook.dfy` | the order-book replica and its gap detection |
| `Multiplicity.dfy`, `Resampling.dfy` | Reality Check and the Romano-Wolf stepdown, and what their p-values count |
| `Retention.dfy` | exact top-N retention |
| `FreshQuotes.dfy` | freshest-quote reduction |
| `WriteLane.dfy`, `LaneDrain.dfy`, `LaneOrder.dfy` | the bounded priority write lane, its drain, and the order in which it runs commands |

Loops and mutable objects keep their form: arrays updated in place, classes with `modifies` clauses,
and methods proved equal to a specification function about which the lemmas speak. Asynchronous code
is a state machine with one atomic step between two awaits. Floating-point and decimal numbers are
`real`; the five-decimal half-even fee rounding and the 1e-8 fill tolerance are modelled because they
appear in the guarantees. The logarithm is any function on the positive reals that lies below its
tangents.

Where the code does not do what its documentation says, the model follows the code and a lemma gives
the exact extent:

- The linkage is documented as a maximum-weight assignment (app/identity.py:369). It is one for every
  clear-cut weighting of a set of eligible pairs exactly when no pair competes on both of its sides and
  the threshold admits no negative weight (`Linkage.MaximumExactly`). The default weights produce a
  losing input, 9.5 against 7.5 and 7.5 (`MappingLaws.DefaultNotMaximum`). In general, eligible edges
  that touch a linked endpoint cannot be matched to more than twice what is linked
  (`Linkage.HalfOptimal`).
- "already linked to a higher-weight target" (app/identity.py:452) is right for every losing pair with
  its score if and only if that pair had start evidence, or was below the link threshold, or was in the
  non-link band (`MappingLaws.TakenReasonExactly`). The default weights produce a pair for which it is
  wrong (`MappingLaws.TakenByLighter`).
- "Candidate/target input order does not affect the result" (app/identity.py:375) holds of given targets
  and candidates, for all scores, if and only if no two candidates share an id, apart from calls without
  targets and calls with one target, two candidates and no weight between the thresholds
  (`MappingOrder.OrderFreeExactly`). The default weights produce an input for which it fails
  (`MappingOrder.DuplicateIdsMatter`).
- "do not begin a new account entry after it" (app/main.py:1027-1028) does not hold while a record
  is between that check and its placement (`LifecycleWitnesses.EntryAfterFlag`,
  `LifecycleRuns.FlagStopsEntriesExactly`). That a finalized event has no open bet does hold.
- An order-book snapshot whose asks fail leaves the new bids in a replica that still counts as
  synchronized (`OrderBook.FailedSnapshotExactly`). The one caller rebuilds its replicas after an error.
- "keeps FIFO order inside a priority" (app/dbwriter.py:170) holds over whole runs in which no put finds
  the queue full, and so for a lane exactly when its queue is unbounded (`LaneOrder.FifoUnlessFull`,
  `LaneOrder.FifoExactly`).
- "Finish queued work" (app/dbwriter.py:104-113) holds of a drain that runs to its end exactly when no
  put had been woken, but not resumed, at the moment the drain was released; otherwise that put enters
  a queue that nobody serves (`LaneDrain.DrainExactly`, `LaneDrain.DrainLoses`).

Two documented statements are made precise:

- The reported gap m/t (app/portfolio.py:260) is not by itself a duality gap, because centring stops
  early. It is one up to a factor of 1.0000142, whatever the barrier weight: no admissible allocation has
  an expected growth above the solver's point by more than that times m/t (`BarrierBound.GapHolds`,
  `SizingGap.ReportedGap`). At multiplier 1 the fractions handed back may lose a little more, because the
  smallest are set to zero (`SizingGap.ReturnedGap`); a multiplier m below 1 keeps at least the share m of
  the growth (`SizingGap.ReturnedShare`).
- The terms of the score decomposition are documented as non-negative (app/backtest.py:159-160).
  `Corp.Decomposition` gives each exactly, with an extra term for outcomes that are neither 0 nor 1, and
  `Corp.DiscriminationSign` has the signs for outcomes in [0,1].

## Model

| member | source | states |
|---|---|---|
| Isotonic.PavBlocks | app/backtest.py:137-150 | the stack loop returns the means and sizes of the pooled blocks |
| Isotonic.PavCovers | app/backtest.py:137-150 | the blocks partition the outcomes in order, conserve their sums, dominate on prefixes, and have strictly increasing means |
| Isotonic.FitMonotone | app/backtest.py:137-150 | blocks with increasing means give a fit that never decreases by position |
| Isotonic.FitIsProjection | app/backtest.py:137-150 | the fit is the least-squares projection onto non-decreasing sequences, with the Pythagorean inequality against every such sequence |
| Isotonic.ProjectionUnique | app/backtest.py:137-150 | no other non-decreasing sequence is as close to the outcomes |
| Corp.Diagram | app/backtest.py:173-184 | the cursor loop gives one bin per block with its mean forecast, and the fit position by position |
| Corp.CorpReliability | app/backtest.py:153-196 | no report exactly when nothing is scored; otherwise the report of the data sorted by forecast and outcome |
| Corp.Decomposition | app/backtest.py:185-196 | mean Brier = miscalibration - discrimination + uncertainty; miscalibration is at least the squared distance from forecast to fit and zero only at the fit; discrimination is the spread of the fit plus the softness of the outcomes |
| Corp.DiscriminationSign | app/backtest.py:158-160 | with outcomes in [0,1] discrimination and uncertainty are non-negative, and for 0/1 outcomes discrimination is zero exactly for a flat fit |
| Corp.OrderIndependent | app/backtest.py:166-172 | the report does not depend on the order of the bets |
| LinearSolver.PivotRow | app/portfolio.py:155-157 | the first row at or below the diagonal with the largest entry of the column |
| LinearSolver.EliminateRow | app/portfolio.py:163-167 | subtracts the scaled pivot row from one row, in place, and changes nothing else |
| LinearSolver.ClearColumn | app/portfolio.py:160-167 | clears the column in all rows but the pivot's, and leaves the rows that eliminating them one by one gives |
| LinearSolver.SwapKeeps | app/portfolio.py:158-158 | swapping two rows keeps the solution set |
| LinearSolver.EliminateKeeps | app/portfolio.py:162-167 | eliminating from column col on keeps the solution set, because earlier pivot columns are clear |
| LinearSolver.ReducedKeeps | app/portfolio.py:154-167 | while every column met a usable pivot, the elimination's state has the solution set it began with and the columns behind it are cleared |
| LinearSolver.SolveLinear | app/portfolio.py:150-168 | None exactly when the elimination's own state reaches a column without a usable pivot; otherwise the exact and only solution |
| LinearSolver.UndeterminedIsStuck | app/portfolio.py:154-157 | a system without exactly one solution never gets an answer |
| LinearSolver.TinyPivotRefused | app/portfolio.py:156-157 | so does a solvable one whose entry is below the pivot threshold |
| Scenarios.GroupMembers | app/portfolio.py:108-111 | members per group in index order, groups in order of first appearance |
| Scenarios.CollectAtoms | app/portfolio.py:117-130 | the atoms of a group between consecutive cuts, with their winners |
| Scenarios.CrossProduct | app/portfolio.py:135-142 | joining two lists of atoms multiplies masses and unites winners |
| Scenarios.EnumerateScenarios | app/portfolio.py:96-147 | None exactly when the product of atom counts exceeds the cap, else the scenarios of the product |
| ScenarioLaw.GroupLaw | app/portfolio.py:116-130 | inside a group, any set of members all win with the mass of the least clamped probability |
| ScenarioLaw.CombosLaw | app/portfolio.py:135-142 | over distinct groups these masses multiply |
| ScenarioLaw.JointLawHolds | app/portfolio.py:96-147 | every scenario has positive mass, and every set of candidates wins together with exactly the product over groups of the least clamped probability, or with mass zero if one of them has a price at which winning does not pay |
| ScenarioLaw.TotalMass | app/portfolio.py:96-147 | the masses add up to 1 |
| ScenarioLaw.Marginal | app/portfolio.py:99-101 | a candidate wins with its clamped probability, and never at a price outside (0,1) |
| ScenarioLaw.PairLaw | app/portfolio.py:99-104 | two candidates with prices in (0,1) win together with the minimum if they share a group, else with the product |
| ScenarioLaw.ScenarioPays | app/portfolio.py:84-144 | in every scenario a priced candidate either loses its dollar or the shares the dollar bought pay one each |
| ScenarioLaw.ExpectedProfit | app/portfolio.py:84-144 | so its expected profit per dollar, times the price, is its clamped probability less the price |
| Barrier.HessianSemidefinite | app/portfolio.py:215-236 | the scenario and barrier Hessian is positive semidefinite at feasible points |
| Barrier.NewtonDescends | app/portfolio.py:237-242 | a solved Newton system gives a non-ascent direction, so the guard on a negative decrement is dead in exact arithmetic |
| Barrier.GapCertificate | app/portfolio.py:260-262 | for every admissible y, t times the growth it could add is at most m, less the ratios of y's slacks to x's, less the lags of the logarithm behind its tangents, less the gradient along y - x |
| BarrierGap.CauchySchwarz | app/portfolio.py:215-236 | the Hessian's form at a feasible point obeys the Cauchy-Schwarz inequality |
| BarrierGap.CentredGradient | app/portfolio.py:240-244 | where the loop stops, the gradient along any direction is small in the Hessian's norm |
| BarrierGap.CentredGap | app/portfolio.py:240-262 | so t times the growth any admissible y could add exceeds m by an amount whose square is at most twice the tolerance times the squared norm of y - x |
| BarrierBound.NormBound | app/portfolio.py:215-236 | the Hessian norm of y - x is at most m plus the slack ratios plus the lags, for any solvency epsilon |
| BarrierBound.GapHolds | app/portfolio.py:237-262 | so no admissible y has an expected growth above the centred point's by more than 1.0000142 m/t, for every weight t and any solvency epsilon |
| BarrierLoop.NewtonSystem | app/portfolio.py:215-236 | the nested loops compute exactly the gradient and Hessian of the barrier objective |
| BarrierObjective.GradientOfPhi | app/portfolio.py:203-235 | between strictly feasible points the objective rises by at least what the assembled gradient at the first promises and at most what the one at the second does |
| BarrierObjective.ExactCentre | app/portfolio.py:203-235 | a strictly feasible point whose gradient vanishes minimises the objective |
| BarrierLoop.AddScenario | app/portfolio.py:226-236 | one scenario's terms added in place |
| BarrierLoop.AddBounds | app/portfolio.py:221-225 | one coordinate's bound and budget terms added in place, no other entry touched |
| BarrierLoop.LineSearch | app/portfolio.py:246-257 | returns the first of sixty halvings whose trial is strictly feasible and lowers the objective by a quarter of scale times slope, and nothing exactly when none does |
| BarrierPath.TrialsDescend | app/portfolio.py:237-251 | the trial after k halvings lies along the Newton step, 2^k times nearer, and the gradient along it is never positive |
| BarrierPath.AcceptsExactly | app/portfolio.py:246-257 | a trial is taken exactly if it is strictly inside and 4 * 2^k times what it lowers the objective by is at least the decrement |
| BarrierPath.CentredExactly | app/portfolio.py:237-244 | the loop's stopping test holds exactly if the slope along a Newton step is above -2e-10 |
| BarrierPath.LastRound | app/portfolio.py:212-264 | the last round is the first whose power of 15 reaches the number of constraints times a hundred million |
| BarrierLoop.Centre | app/portfolio.py:214-259 | every iterate stays strictly feasible; success means a small Newton decrement |
| BarrierLoop.BarrierSolve | app/portfolio.py:171-264 | a returned point is strictly feasible and centred at the first weight whose m/t is within tolerance, which it reports; an infeasible start returns None |
| BarrierLoop.StartFeasible | app/portfolio.py:187-201 | with positive caps and no loss above the stake, the start is feasible exactly when the budget is positive |
| BarrierLoop.EmptyBudget | app/portfolio.py:187-201 | without a budget the start is never feasible |
| Barrier.WealthPositive | app/portfolio.py:190-204 | strictly feasible points have positive wealth in every scenario, for any solvency epsilon when losses stay inside the stake |
| Barrier.LossBound | app/portfolio.py:190-191 | no scenario loses more than the sum staked |
| JointKelly.SingleBetOptimal | app/portfolio.py:289-295 | at multiplier 1 the fraction maximises the expected log growth of buying shares at the price, over everything the cap and budget allow, also when raw Kelly is negative or cut |
| JointKelly.FinishedBounds | app/portfolio.py:320-326 | shrinking, clipping, rescaling and snapping stay within every cap and the budget |
| JointKelly.FullKellyOnlySnaps | app/portfolio.py:320-326 | at multiplier 1 a strictly feasible point is only snapped |
| JointKelly.Scatter | app/portfolio.py:328-330 | active fractions return to their positions, all others are zero, the sum is kept |
| JointKelly.SolveJointKelly | app/portfolio.py:267-333 | fractions within caps and budget; WATCH results are all zero; one bet uses the formula; an optimal result is the finished point of a centred barrier solution; too many scenarios or an empty budget give WATCH |
| KellyMeaning.SingleBetFraction | app/portfolio.py:284-295 | the fraction of one bet is the multiplier's share of (prob - price)/(1 - price), at least nothing and at most cap and budget, and positive exactly when the probability is above the price and multiplier, cap and budget are positive |
| KellyMeaning.SingleStake | app/portfolio.py:279-295 | the same for the answer of the whole call, in the caller's dollars |
| KellyMeaning.UnpricedBet | app/portfolio.py:84-86 | a bet at a price outside (0,1) is staked nothing |
| KellyMeaning.StakeableExactly | app/portfolio.py:300-301 | a candidate is considered exactly when it has a positive cap and a price inside (0,1) |
| KellyMeaning.AdmissibleMeaning | app/portfolio.py:300-316 | the allocations the solver chooses among: each within its cap in dollars, together within the total, solvent in every scenario |
| KellyMeaning.FinishedMeaning | app/portfolio.py:318-326 | the fractions are what fractional Kelly asks for, scaled by one factor to exactly the budget if that is exceeded, less those below a millionth |
| SizingGap.ReportedGap | app/portfolio.py:306-333 | 1.0000142 times the gap in an optimal result bounds the growth any admissible allocation of the same candidates adds to the solver's point |
| SizingGap.ReturnedGap | app/portfolio.py:318-333 | at multiplier 1 it bounds what they add to the fractions handed back, plus n times the snap threshold times the largest profit over what is not staked |
| SizingGap.ReturnedShare | app/portfolio.py:318-333 | for a multiplier m in [0,1] the fractions handed back have at least the share m of the growth over staking nothing that any admissible allocation has, less the share m of that bound and the same snap cost |
| JointKelly.WealthFloor | app/portfolio.py:267-333 | whatever loses, wealth keeps at least 1 - budget |
| Linkage.GreedySettles | app/identity.py:396-423 | the greedy loop ends in a settled set: an edge is linked exactly when nothing heavier holds its endpoints and no free rival is within the margin |
| Linkage.SettledUnique | app/identity.py:396-423 | there is only one settled set |
| Linkage.OrderFree | app/identity.py:375-423 | renumbering targets and candidates and breaking weight ties in any order links the same pairs |
| Linkage.TieProofExactly | app/identity.py:399-412 | ties are irrelevant exactly when the margin is positive |
| Linkage.SettledMatches | app/identity.py:396-414 | the links are one-to-one |
| Linkage.StableWithMargin | app/identity.py:399-414 | an edge left out was beaten by a full margin by the first link at its endpoints |
| Linkage.HalfOptimal | app/identity.py:362-423 | any one-to-one set of eligible edges touching linked endpoints weighs at most twice the links of positive weight |
| Linkage.MaximumWhenPathFree | app/identity.py:368-369 | without competing paths the links are maximum exactly when every edge has a clear winner |
| Linkage.MiddleEdgeLoses | app/identity.py:368-369 | an edge a margin heavier than two that compete with it on its two sides is linked alone, and the two together weigh more |
| Linkage.NegativeLinked | app/identity.py:389-414 | an eligible edge of negative weight is linked, though linking nothing weighs more |
| Linkage.MaximumExactly | app/identity.py:368-369 | over clear-cut eligible weightings of a set of pairs, in which every edge has a clear winner, the links are always maximum exactly when no pair competes on both sides and no negative weight is eligible |
| MappingLaws.DefaultNotMaximum | app/identity.py:304-423 | two targets and two candidates whose four pairs the default weights score 9.5, 7.5, 7.5 and -3.5, where the links are not maximum |
| EventMapping.StartDecides | app/identity.py:304-350 | with the default weights a comparable pair is eligible exactly when both starts are known and agree; a far start is in the non-link band |
| EventMapping.OrderedArranges | app/identity.py:386-394 | the sorted list is a heaviest-first arrangement of the eligible edges |
| EventMapping.OrderedBreaksTies | app/identity.py:392-393 | equal weights are in the order of the target ids, and of the candidate ids for one target id |
| EventMapping.LinkEdges | app/identity.py:396-423 | the loop with its two taken sets computes the greedy links |
| EventMapping.ResolveEventMappings | app/identity.py:362-464 | one decision per target: mapped exactly for linked targets, else the documented fallback with its reason |
| MappingLaws.MappedOneToOne | app/identity.py:371-374 | mapped targets get distinct, eligible candidates |
| MappingOrder.DecisionsOrderFree | app/identity.py:375-464 | with distinct candidate ids, permuting targets and candidates gives every target the same decision, reasons included |
| MappingOrder.OrderFreeExactly | app/identity.py:375-464 | status, reason, weight and provider id are the same for all scores and rearrangements if and only if candidate ids are distinct, or there is no target, or one target, two candidates and no weight between the thresholds |
| MappingOrder.DuplicateIdsMatter | app/identity.py:304-464 | scores of the default weights, for every pair that is comparable, for which swapping two candidates with one id changes a target's reason in the whole call |
| MappingLaws.TakenMeansHeavier | app/identity.py:450-452 | a link that holds the candidate is heavier than a losing pair with start evidence or below the threshold |
| MappingLaws.TakenReasonExactly | app/identity.py:446-452 | the "higher-weight target" reason is right in every map with the losing pair exactly when that pair had start evidence, was below the link threshold, or was in the non-link band |
| MappingLaws.TakenByLighter | app/identity.py:304-452 | three events that the default weights score 6.5 and 4.5, for which the reason is wrong |
| MappingReasons.PairScored | app/identity.py:282-350 | when two events are compared at all, what the pair weighs by names, competition and starts, and when the starts corroborate it |
| MappingReasons.DecisionReasons | app/identity.py:425-464 | status, candidate, weight and reason of every target without a link, by its heaviest pair, the thresholds, the links and the start evidence |
| MappingReasons.QuarantinedExactly | app/identity.py:425-464 | with the default weights such a target is quarantined exactly when every event its names match is known to start at another time |
| Execution.QuantizeClose | app/execution.py:87-88 | half-even rounding to five decimals moves by at most half a quantum and keeps the sign |
| Execution.PricesIncrease | app/execution.py:146-147 | for a fee rate in [0,1] all-in and net prices strictly increase with the price |
| Execution.SimulateBuy | app/execution.py:91-179 | the walk with its early stop equals the specified result, refusals included |
| Execution.BuyOptimal | app/execution.py:138-163 | no allocation costing at most what the walk spent before rounding buys more shares |
| Execution.BuyResultOptimal | app/execution.py:133-179 | the same for the returned result over the asks as given |
| Execution.BuyCompletes | app/execution.py:142-166 | the walk completes exactly when the depth covers the cash up to the dust |
| Execution.BuyCost | app/execution.py:164-179 | a fill costs at most the request plus half a quantum, a full fill at least the request less half a quantum and the dust; refusals are zero |
| FillOutcome.FeeCurve | app/execution.py:87-87 | the fee of a share is the rate times p - p*p, the same for a price and its complement, added to a purchase and taken from a sale |
| FillOutcome.QuantizeNearest | app/execution.py:87-88 | fees are rounded to the nearest hundred-thousandth, halves to the even one |
| FillOutcome.BuyRefused | app/execution.py:105-141 | a purchase that is not in order raises or returns nothing bought, each reason under exactly its own condition |
| FillOutcome.BuyFilled | app/execution.py:142-179 | one that is in order is complete exactly when the depth covers the cash up to the dust and the shares reach the minimum; a thin book gives nothing under the reject policy and all it holds otherwise |
| FillOutcome.BuyNumbers | app/execution.py:142-179 | a fill takes the cheapest asks first; shares, cost, fee, levels and both prices are those of what it takes |
| Sale.SimulateSell | app/execution.py:182-261 | the walk over the bids equals the specified result, including the fee error |
| Sale.SellWalkFacts | app/execution.py:230-247 | at every level, what is sold, its gross and its fees match the shares taken |
| Sale.SellOptimal | app/execution.py:230-247 | no allocation selling at most as many shares nets more before rounding |
| Sale.SellCompletes | app/execution.py:239-252 | the sale completes exactly when the bids hold the shares up to the dust |
| FillOutcome.SaleRefused | app/execution.py:196-233 | a sale that is not in order raises or returns nothing sold, each reason under exactly its own condition |
| FillOutcome.SaleFilled | app/execution.py:230-261 | one that is in order raises exactly for a rate above 1 on a book with bids, and is otherwise complete exactly when the bids hold the shares |
| FillOutcome.SaleNumbers | app/execution.py:230-261 | a sale takes the dearest bids first; shares, gross, net, levels and both prices are those of what it takes, and the fee to half a quantum a level |
| Sale.RoundTrip | app/execution.py:91-261 | on an uncrossed book, selling what a fill bought never returns more than was paid |
| Accounts.TwoSidesPay | app/accounts.py:434-470 | as many shares of each side of a line pay exactly their number, or both stakes are refunded; only a tie in a sport with draws makes both sides of a moneyline lose |
| Accounts.ThreeWayOneWinner | app/accounts.py:434-470 | in a sport with draws exactly one of home, draw and away wins, by the score, and the other two lose |
| Settlement.GradeMeaning | app/accounts.py:434-470 | which side of a moneyline, a total and a spread wins, splits or is refunded, by the score and the point |
| Accounts.CloseKeeps | app/accounts.py:1458-1488 | closing any open bets with any credits keeps the tables well formed and the money conserved |
| Accounts.CashOutKeeps | app/accounts.py:1290-1443 | marking and cashing out does |
| Placement.PlannedWithinCaps | app/accounts.py:1118-1177 | a planned bet has a positive stake that fits under the event, sport, group and total caps up to half a fee quantum |
| Placement.SignalKeeps | app/accounts.py:1030-1267 | serving one signal keeps conservation, every cap, and the running totals equal to the stored exposure |
| Placement.AccountKeeps | app/accounts.py:1002-1267 | serving one account keeps its equity, every cap against its equity, and its cash floor |
| Placement.PlaceKeeps | app/accounts.py:960-1288 | after a call, in every scope of every account, exposure is at most the larger of what it was and its cap plus 0.000005, equity is unchanged, and with total percentage at most 1 cash does not fall below -0.000005, whatever the joint stakes |
| Entry.StakeForMeaning | app/accounts.py:416-427 | the independent stake is the largest amount within the sizing rule, the stake cap, the bankroll and what can be filled |
| Entry.RequestedMeaning | app/accounts.py:1118-1143 | the amount requested is the largest that the sizing, or the joint stake, and every exposure cap allow |
| Entry.OrderOnMeaning | app/accounts.py:1149-1165 | the order placed on a quote carries the quote's fee, tick, minimum and market state, and rejects partial fills |
| Entry.BookLevelsMeaning | app/accounts.py:482-486 | a quote's levels are taken as given, or not at all when one is no price or has a negative size |
| Entry.SignalEnters | app/accounts.py:1030-1267 | serving a signal appends exactly the bet of that amount, up to fee rounding and the fill dust, if and only if it is at least a dollar, the signal may be traded, the amount fills completely at a price that leaves the required edge, and the account has no bet on the outcome |
| Entry.EntriesSound | app/accounts.py:960-1288 | every bet a call opens is one an active account not barred from the event makes on a worthwhile signal at a price still profitable when paid |
| EntryTrace.ExposureMeaning | app/accounts.py:1007-1017 | exposure adds up over the account's open bets in the scope, and over no others |
| EntryTrace.AccountServes | app/accounts.py:1002-1267 | an account is served exactly the worthwhile signals, in order, from its cash and open stakes, against the equity it had at the start; a switched-off or barred one is not served |
| EntryTrace.CallServes | app/accounts.py:960-1288 | a call serves every account once, in row order, each on the tables the one before left |
| AccountRuns.StepKeeps | app/accounts.py:714-1520 | every operation keeps the tables well formed and conserved, and closed rows unchanged |
| AccountRuns.RunConserves | app/accounts.py:714-1520 | in every run, bankroll + open stakes = starting bankroll + realised profit, account by account |
| AccountRuns.RunEvolves | app/accounts.py:714-1520 | a bet leaves "open" at most once and never changes afterwards |
| AccountRuns.EventClosed | app/accounts.py:1445-1520 | settling or voiding an event closes all its bets and touches no other |
| Settlement.SettledRow | app/accounts.py:1445-1488 | every open bet of a settled event gets its grade; a win pays its shares, a loss nothing, a split half the shares, a push or an ungradeable line the stake; all other rows stay |
| Settlement.SettledBankrolls | app/accounts.py:1479-1488 | each bankroll rises by exactly stake plus profit of the account's rows that were closed, and nothing else changes |
| Settlement.CloseCounts | app/accounts.py:1450-1520 | what settling and voiding return is how many rows they closed |
| Settlement.VoidedRow | app/accounts.py:1490-1520 | a void refunds every open bet of the event |
| Settlement.VoidedBankrolls | app/accounts.py:1490-1520 | and returns exactly those stakes |
| Settlement.CashedRow | app/accounts.py:1290-1443 | a cash-out closes exactly the bets whose mark takes an exit, at what the sale netted |
| Settlement.CashedBankrolls | app/accounts.py:1396-1443 | and returns exactly what those sales netted |
| Settlement.MarkedRow | app/accounts.py:1304-1330 | only open bets of the event are marked, by their account's rules and the quote and probability of their token |
| Settlement.RaisedPass | app/accounts.py:1333-1351 | a sale that raises leaves every row and bankroll as it was |
| AccountStore.AccountBook.SeedAccounts | app/accounts.py:714-730 | reaches the seeded tables: new accounts appended, known ones updated, money untouched |
| AccountStore.AccountBook.CreateCustom | app/accounts.py:732-748 | creates the account exactly when the name is free |
| AccountStore.AccountBook.ApplyClosings | app/accounts.py:1458-1488 | the collected row updates and per-account credits give the closed tables |
| AccountStore.AccountBook.Settle | app/accounts.py:1445-1488 | ends in the settled tables and counts the bets it closed |
| AccountStore.AccountBook.VoidEvent | app/accounts.py:1490-1520 | ends in the voided tables and counts the bets it closed |
| AccountStore.AccountBook.MarkOne | app/accounts.py:1333-1395 | marks one row with an executable sale; the next three lemmas say what the mark means |
| Accounts.MarkRaisesHighWater | app/accounts.py:1371-1385 | the high-water mark never falls, and rises only to the profit of a complete sale on a fresh book |
| Accounts.ExitMeaning | app/accounts.py:543-576 | an exit takes a complete sale's net, with cash-out enabled and the hold reached; below the required profit only by the hard target or a reversal past the stop loss |
| Accounts.ExitTaken | app/accounts.py:543-576 | the hard target and a reversal past the stop loss always lead to an exit then |
| Settlement.ExitExactly | app/accounts.py:543-576 | a position that sells whole is sold exactly when cash-out is on and the hold, the hard target, the trailing stop, a reversal in profit or one past the stop loss say so, in the row's own numbers; the mark remembers the best gain |
| Settlement.Unsold | app/accounts.py:1333-1370 | a row that does not sell whole keeps its mark, unless the sale raises |
| AccountStore.AccountBook.MarkAndExit | app/accounts.py:1290-1443 | ends in the marked and cashed-out tables, or unchanged when a sale raises |
| AccountStore.AccountBook.Plan | app/accounts.py:1118-1216 | finds the planned bet with a simulated buy |
| AccountStore.AccountBook.JointStakes | app/accounts.py:578-622 | the stakes of a solved joint sizing of exactly the sizable signals, by token; each is within such a signal's own cap, and no choice of tokens gets more than the budget's share of the bankroll |
| JointSizing.DictStaked | app/accounts.py:619-622 | in the mapping from token to stake, distinct tokens get at most the sum of the solver's list, also when a token occurs twice |
| JointMeaning.JointCapMeaning | app/accounts.py:606-611 | a candidate's cap is the largest amount within the sizing rule and the event, sport and total caps |
| JointMeaning.SizableMeaning | app/accounts.py:592-618 | a signal is sized jointly exactly when it is gradeable and quoted, has an estimate and a price inside (0,1), and some amount is allowed; its candidate has that estimate, price, group and largest amount |
| JointMeaning.StakesMeaning | app/accounts.py:578-622 | a token gets a stake exactly when such a signal names it, within that signal's sizing and caps, and two tokens together at most the total share of the bankroll |
| JointMeaning.LoneStake | app/accounts.py:578-622 | the only signal sized gets the single-bet stake of its estimate and price |
| AccountStore.AccountBook.ServeSignal | app/accounts.py:1030-1267 | serves one signal on the tables and the running totals |
| AccountStore.AccountBook.PlaceBets | app/accounts.py:960-1288 | ends in the tables that `Placement.PlaceKeeps` speaks about, on both sizing paths; on the joint path each served account's overrides are its joint stakes on the tables it was served from |
| LifecycleSteps.Exclusive | app/main.py:354-355 | two tasks inside the lock of one tracked event are the same task |
| LifecycleSteps.CancelKeeps | app/main.py:1141-1143 | a canceled feed task is never in the middle of an entry, so none is left running unseen |
| LifecycleSteps.WriteKeeps | app/main.py:1145-1230 | settlement leaves nothing open: it has a score, or voids, or the event was gone |
| LifecycleSteps.EvictKeeps | app/main.py:1094-1121 | eviction keeps the invariant although it pops a lock it does not hold |
| LifecycleEviction.EvictionNeverBreaks | app/main.py:1106-1121 | an eviction never stops at an open position, because a finalized event has none when they are counted |
| LifecycleEviction.EvictionBounds | app/main.py:1106-1121 | an eviction that is neither canceled nor fails ends only with at most the retained number of finalized events in memory |
| LifecycleSteps.DeleteKeeps | app/main.py:4365-4383 | so does deletion, which also forgets the finalized mark |
| LifecycleSteps.ApplyKeeps | app/main.py:977-1239 | every step of every interleaving keeps the invariant |
| LifecycleRuns.FinalizedStaysClosed | app/main.py:1124-1239 | an event that is settled or gone has no open bet and nobody entering one, after any further steps |
| LifecycleRuns.FinalizedHasNoBets | app/main.py:1124-1239 | the same from every reachable state in which the event is finalized |
| LifecycleRuns.EntryNeeds | app/main.py:1029-1079 | a bet is placed only by the holder of the event's current lock, on a tracked and unfinalized event |
| LifecycleRuns.FlagStopsEntriesExactly | app/main.py:1027-1030 | under a raised flag a bet can still be gained if and only if a record had passed the last check |
| LifecycleProgress.NeverStuck | app/main.py:977-1239 | in every reachable state each task can go on, or the task that holds the lock it waits for can: no interleaving ends in a deadlock |
| LifecycleProgress.TerminalSettles | app/main.py:1124-1239 | from every reachable state the reported end of a tracked event that is neither finalized nor being deleted, with nobody in its section, finalizes it in six steps, with nothing open and no other event's bets touched |
| LifecycleWitnesses.EntryAfterFlag | app/main.py:1027-1079 | a reachable state in which that happens |
| LifecycleWitnesses.TrackedOneHolder | app/main.py:354-355 | in reachable states a tracked event has at most one task in its section |
| LifecycleWitnesses.LockNotExclusive | app/main.py:4389-4393 | after a deletion two tasks can be in the section of one event |
| OrderBook.LevelsMeaning | app/orderbook.py:67-76 | a side parses exactly when every level is valid, and each price gets its last positive size |
| OrderBook.SnapshotInNumbers | app/orderbook.py:22-76 | a snapshot is accepted exactly when it names this token or none and every level has a price inside (0,1) and a size that is not negative; it then leaves the last positive size of each price, in step exactly when hash and timestamp are named |
| OrderBook.OrderBookState.Levels | app/orderbook.py:67-76 | the loop computes that side |
| OrderBook.OrderBookState.ApplySnapshot | app/orderbook.py:22-30 | the new state and outcome, including the half-applied failure |
| OrderBook.OrderBookState.ApplyChange | app/orderbook.py:32-56 | the new state and outcome, including the three refusals |
| OrderBook.SizesStayPositive | app/orderbook.py:45-53 | no stream of messages leaves a size that is not positive |
| OrderBook.TimestampsAdvance | app/orderbook.py:35-54 | between snapshots the timestamp never goes back |
| OrderBook.GapFreezes | app/orderbook.py:33-34 | once out of step nothing changes until a snapshot |
| OrderBook.ReplicaMatchesVenue | app/orderbook.py:22-56 | over a channel that drops, repeats and reorders messages which name both their versions, with one change or several, a synchronized replica equals the venue's book of the version its hash names |
| OrderBook.ManyChangesGap | app/orderbook.py:39-56 | a message that names both its versions and holds several changes of the book always ends out of step, because the first change already moves the hash |
| OrderBook.UnnamedExactly | app/orderbook.py:39-56 | after a message that does not name the version it starts from the replica is faithful if and only if it refused it, or agreed with that version on every level the message leaves alone |
| OrderBook.UnhashedExactly | app/orderbook.py:39-56 | after a message that does not name the version it leads to it is faithful if and only if it refused it or no level changed |
| OrderBook.UnnamedLies | app/orderbook.py:39-56 | a lost message followed by an unnamed one: a synchronized replica of a book that never was |
| OrderBook.InOrderFollows | app/orderbook.py:32-56 | messages in order, each with one change or without the version it starts from, are all accepted and reach the venue's latest book |
| OrderBook.FailedSnapshotExactly | app/orderbook.py:26-30 | after a snapshot with bad asks the replica is faithful exactly when it was out of step or its bids did not change |
| OrderBook.FailedSnapshotLies | app/orderbook.py:26-30 | an input for which it is not |
| Multiplicity.PerEventMeans | app/multiplicity.py:20-28 | one mean per event in the order asked |
| Multiplicity.ObservationsConserved | app/multiplicity.py:20-28 | every observation is counted in exactly one event |
| Multiplicity.Prepare | app/multiplicity.py:31-43 | refuses exactly missing candidates, missing events and lists of unequal length; otherwise sorted names, sorted distinct events and the matrix of means |
| Multiplicity.Observed | app/multiplicity.py:46-48 | the mean of each candidate's event means |
| Multiplicity.Bootstrap | app/multiplicity.py:51-65 | one centred statistic per draw and candidate |
| Multiplicity.ShiftKeepsCentered | app/multiplicity.py:54-65 | recentring removes any constant advantage from the bootstrap and none from the observed mean |
| Resampling.CenteredMeaning | app/multiplicity.py:60-64 | a candidate's statistic plus its mean is the mean of the drawn events' values, each as often as it was drawn |
| Resampling.MeanMeaning | app/multiplicity.py:46-48 | a candidate's observed mean times the number of events is the sum of its event means |
| Resampling.OneEventDrawn | app/multiplicity.py:60-64 | a draw of one event alone gives what that event is above the mean |
| Resampling.BetterDraw | app/multiplicity.py:60-64 | replacing a drawn event by one of larger mean raises the statistic |
| Multiplicity.RealityCheck | app/multiplicity.py:68-77 | the Reality Check p-value, in (0,1] |
| Multiplicity.RomanoWolf | app/multiplicity.py:80-102 | each candidate gets the running maximum of the stepdown values up to its place |
| Multiplicity.StepdownLaw | app/multiplicity.py:80-102 | adjusted values lie in (0,1], do not decrease down the order, start at the Reality Check's, and lie between the candidate's own and its single-step p-value |
| Multiplicity.TiesAgree | app/multiplicity.py:91-101 | equal advantages get equal adjusted p-values, so names do not matter |
| Multiplicity.CommonAdvantage | app/multiplicity.py:80-102 | a common advantage keeps the order and raises no adjusted p-value |
| Resampling.RealityCheckPValue | app/multiplicity.py:31-77 | from the raw observations: one plus the draws in which some candidate's resampled mean exceeds its own mean by at least the best candidate's mean, over one plus the draws |
| Resampling.RomanoWolfPValues | app/multiplicity.py:31-102 | from the raw observations: by decreasing mean, each candidate gets the largest of these shares up to its place, every share counting the candidates from its own place on |
| Retention.NewestOrders | app/ledger.py:418-423 | the four-part order is total |
| Retention.Ledger.PruneDecisionMarks | app/ledger.py:391-440 | the tables after the age bound and the cap |
| Retention.CapKeepsNewest | app/ledger.py:410-440 | the cap keeps exactly the N newest rows, so min(N, count), whatever timestamps tie |
| Retention.PruneKeeps | app/ledger.py:391-440 | only rows inside the window remain, every dropped row is older than every kept one, and the count is exact; no cap keeps the whole window |
| Retention.StorageOrderIrrelevant | app/ledger.py:411-423 | the kept rows do not depend on how the table is stored |
| Retention.PruneOnceIsEnough | app/ledger.py:391-440 | pruning again at the same moment removes nothing |
| FreshQuotes.FreshestValidPayloads | app/engine.py:556-616 | the dictionary loop computes the reduction, in insertion order |
| FreshQuotes.PickMeaning | app/engine.py:597-615 | what is picked for a selection is its earliest valid payload that no other is newer than, and nothing only if none is valid |
| FreshQuotes.ReduceKeepsBest | app/engine.py:560-565 | every selection is kept once, in order of first valid appearance, at its best |
| FreshQuotes.ReduceInNumbers | app/engine.py:556-616 | a selection is kept exactly when a payload of it has a probability and an ask inside (0,1), a bid in [0,1) and no negative size, where given; and what is kept is the first of the latest such |
| FreshQuotes.ReduceInPieces | app/engine.py:560-570 | reducing parts first, one or both, gives the reduction of the whole including its order |
| FreshQuotes.ReduceIdempotent | app/engine.py:566-570 | reducing twice changes nothing |
| WriteLane.ApplyKeeps | app/dbwriter.py:142-215 | every step keeps the counters exact, runs unique, and waiting puts backed by a full queue |
| WriteLane.LaneConserves | app/dbwriter.py:163-215 | admitted = completed + failed + in flight + queued in every run; no command runs twice; the queue respects its bound |
| LaneDrain.DrainComplete | app/dbwriter.py:104-124 | a drain released with no put woken leaves nothing unexecuted, not even suspended puts, and every awaited submit resolved |
| LaneDrain.DrainExactly | app/dbwriter.py:104-124 | from the step that releases the drain, everything is done in every continuation if and only if no put was woken at that step |
| LaneDrain.DrainLoses | app/dbwriter.py:104-133 | a run in which a put left woken enters the queue of a finished drain and is never run |
| LaneDrain.LeftWaiting | app/dbwriter.py:125-133 | without a worker a submitter that has no result waits until it gives up |
| LaneDrain.AnsweredEntered | app/dbwriter.py:142-178 | a submitter goes on only once its command has entered the queue or was withdrawn |
| LaneDrain.WorkerStops | app/dbwriter.py:104-133 | the worker stops only after new work is refused, and only when the wait for the queue was released or cut short |
| LaneDrain.DrainBounded | app/dbwriter.py:114-215 | after a stop has begun, the steps of the worker and of woken puts are bounded by the work outstanding |
| WriteLane.NeverStuck | app/dbwriter.py:179-215 | until everything is done the lane can always take a step |
| WriteLane.StoppedRunsNothing | app/dbwriter.py:125-133 | without its worker nothing more is run or counted |
| LaneOrder.OvertakesExactly | app/dbwriter.py:163-182 | of two commands of one priority that a run both runs, the later goes first if and only if it is picked at a moment at which the full queue keeps the earlier suspended |
| LaneOrder.FifoUnlessFull | app/dbwriter.py:163-182 | a run in which no put finds the queue full picks the commands of one priority in sequence order |
| LaneOrder.FifoExactly | app/dbwriter.py:170-172 | every run of a lane does so if and only if its queue is unbounded |
| LaneOrder.Overtakes | app/dbwriter.py:170-172 | for every bounded queue, a run in which a later command of the same priority is picked first |

## Left out

- Rounding of floats and 28-digit decimals: all arithmetic is exact, so guards against rounding (`total > remaining`, a negative Newton decrement, atoms without mass) are dead branches here.
- BarrierLoop.BarrierSolve: does not say that the Newton iteration converges; failing to converge returns None as in the source.
- AccountStore.AccountBook.JointStakes: which of several solved sizings the solver returns is not determined.
- SizingGap.ReturnedShare: a multiplier above 1 is not covered; it overstakes, and the caps and the budget cut it back.
- Text normalisation, team-name scores, line parsing, correlation groups, quote staleness and the gate lists that qualify a signal are inputs.
- The random index draws of the bootstrap are an arbitrary matrix; statistical validity is not modelled.
- Lifecycle: process shutdown, quote handling, and the ledger and model-lab rows are not modelled; identifiers of added events are fresh, as the source draws them at random.
- WriteLane: one life of a lane is modelled (no restart), and the 30-second limit of a drain appears as a step that may cut it short.
- WriteLane: the order in which the event loop runs callbacks that are ready is left open, so the model allows more interleavings than one scheduler does; the drain's wait for the queue begins in a step of its own, as it does where wait_for starts a task.
- OrderBook: the top-of-book comparison of the caller (app/sources.py:1015-1023) appears only as a step that takes the replica out of step. Faithfulness is stated between messages: while a message with several changes is applied, the replica already carries the new hash.
- Retention: comparison of text columns is by code point.
- Accounts: removal of custom accounts, reset, the cash-out switch, activity and mark history rows, and JSON evidence are left out.
- SQL text, connections, HTTP and websocket adapters, dashboards, notifications, and model files: input and output around the modelled code.
