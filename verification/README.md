# Financial model core: verification

This project models the deterministic financial core of the repository and proves what its code
does. Amounts are real numbers; floating-point rounding is not modelled. The parts, one or a few
modules each:

- **Calculation graph, evaluator, engine** (`Evaluator`, `EvaluatorLaws`, `Digraph`,
  `CalcGraph`, `Dataflow`, `Drivers`, `DriverLaws`, `Engine`, `EngineLaws`): a blueprint becomes a
  graph; a depth-first search reports a reachable cycle exactly when there is one; Kahn's loop orders
  the nodes; the engine fills the time series in place.
  On a closed blueprint in which a walk along edges leads from each formula input to the formula the
  run succeeds exactly when the formula equations have a solution, and returns the only one, whatever
  the order; without such a walk some system goes wrong in some order.
- **Three statements, debt, funding waterfall** (`Passes`, `Facilities`, `FundingWaterfall`,
  `WaterfallLaws`, `WaterfallPasses`, `DebtSchedule`, `Capex`, `IncomeTax`, `StatementRows`,
  `Reconciliation`, `InterestEffects`, `PlugDebts`, `PlugLimits`, `StaleDividends`, `PlugExamples`,
  `Statements`, `GeneratedStatements`, `ConfigLaws`): the greedy waterfall refines one pooled facility
  and goes by facility type; the statements reconcile with their inputs over whole runs; the
  tax carry-forward is a running maximum; the lists rewritten in place by up to five waterfall passes
  are the statements built from scratch; what interest does to tax, equity, dividends and plug debt.
- **Consolidation and currency translation** (`Labels`, `StatementLines`, `FxTranslation`,
  `TranslationLaws`, `Ledger`, `Consolidation`, `GroupStatements`, `ConsolidationLaws`): translation
  and its exact inverse, consolidated statements line by line and their accounting identities,
  independence of the order of entities.
- **Numeric kernels** (`Ranking`, `Spearman`, `SpearmanValue`; `Matrices`, `Jacobi`, `EigenLoop`,
  `EigenSteps`, `EigenRuns`, `EigenBounds`, `EigenConvergence`; `Markov`, `PowerIteration`): average
  ranks, their correlation and its value, the Jacobi eigenvalue loop with its convergence and error bounds
  for what it returns, calibration of a Markov table.
- `Wrappers`, `Sequences`, `Dicts`, `StableSort`, `RealArith`, `InnerProducts`, `Runs` hold what
  these share.

Classes and methods follow the code that updates state; each is proved equal to a function or
relation, and the properties are lemmas about that. The modules named after laws say what these
functions are worth in terms of inputs and shown results alone.
`dafny verify dfyconfig.toml` checks everything.

## Where the code differs from what its texts say

- `weekly_validator.py` lines 13-15 rank in descending order, the code in ascending order; the
  coefficient is the same (`Spearman.DescendingRanksAgree`).
- `funding_waterfall.py` lines 3 and 52 speak of repaying in reverse order; facilities of the same type
  keep their list order in both directions, so that holds exactly when all types differ
  (`FundingWaterfall.RepayReversesDrawIff`, `FundingWaterfall.TwoRevolversExample`).
- A stepwise ramp is one period late where the value jumps (`Drivers.RampDriverIsLateAtJumps`,
  `Drivers.LateExample`).
- An input that no walk along edges connects to its reader may be read before it is computed
  (`Dataflow.CoveredIffAlwaysSolved`, `Engine.UncoveredInputReadsZero`).
- The check on the number of emitted nodes does not check that the graph is closed: it passes whenever
  as many declared nodes are held up as undeclared ones are emitted (`Digraphs.LengthsMatchIff`,
  `Digraphs.LengthCheckCanBeFooled`, `Digraphs.ClosedIsExact`).
- Each waterfall pass restarts balances at zero: plug debt can reach five times the limits
  (`PlugDebts.PlugDebtBound`, `PlugExamples.FiveTimesTheLimit`). It stays within them only
  if they cover every shortfall (`PlugLimits.LimitsMustSuffice`, `PlugExamples.OverdrawnExample`),
  without interest exactly then
  (`PlugLimits.PlugDebtWithinLimitsIff`), with interest if they leave room for it
  (`PlugLimits.RoomForInterest`, `PlugExamples.InterestOverdrawsExample`).
- The cash-flow dividends line keeps the value of the first build: a payout ratio that meets a profit
  and waterfall interest makes it stale (`InterestEffects.DividendsLineIsStale`,
  `InterestEffects.DividendsLineIsStaleIff`, `StaleDividends.LoopLeavesStale`,
  `StaleDividends.NoneStaleIffFunded`, `PlugExamples.StaleDividendsExample`).
- The current portion of debt ignores grace periods and conversions, and in the last twelve months
  counts repayments of a month after the end of the plan (`DebtSchedule.DueIsRepaidIff`,
  `DebtSchedule.GraceExample`, `DebtSchedule.ConversionExample`, `DebtSchedule.EndOfPlanExample`).
- Capitalised interest raises debt without being an expense, so the balancing financing total takes
  it for money received (`GeneratedStatements.FinancingSectionAddsUp`).
- A conversion in month 0 books equity without debt (`DebtSchedule.ConversionIsNeutral`).
- A zero exchange rate is inverted to one (`FxTranslation.TranslationRoundTrip`).
- Associates open a gap in the consolidated balance sheet, and cash-flow eliminations have one side
  (`Consolidation.BalanceSheetIdentity`, `GroupStatements.AssociateExample`,
  `Consolidation.CashFlowIdentity`, `GroupStatements.CashEliminationExample`).
- The overridden probability is renormalised with its row, so the row seldom holds the value the
  command reports (`Markov.OverrideStoresRequestIff`, `Markov.OverrideExample`).
- For nearly equal, different diagonal entries the rotation does not annihilate the pivot
  (`Jacobi.AngleAnnihilates`); the eigenvalue bounds account for it.

## Assumptions

- Facility identifiers are unique and facilities and capital items lie in the ranges of
  `shared/fm_shared/model/schemas.py` lines 103-147.
- The exponential function of the s-curve is any increasing positive function. The square root
  squares back. Sine, cosine and two-argument arctangent obey the Pythagorean identity, agree at a
  quarter of pi, and halve the angle of the given direction (`Jacobi.Lawful`).
- The tests that find the equity and the net-income line by their labels are parameters.
- The matrix given to the Jacobi loop is symmetric. States stored in the Markov table are in range;
  where a result speaks of stochastic rows, their probabilities are also non-negative.

## Model

| member | source | states |
|---|---|---|
| Evaluator.EvalCoincidence | shared/fm_shared/model/evaluator.py:62-97 | Value or error of an expression depends only on the names that occur in it. |
| Evaluator.SuccessBindsEveryName | shared/fm_shared/model/evaluator.py:67-71 | Evaluation succeeds only if every name, in both branches of each if_else, is bound (the builtins are eager). |
| EvaluatorLaws.SumLaws | shared/fm_shared/model/evaluator.py:15-85 | Sums of expressions commute and associate, and zero is neutral. |
| EvaluatorLaws.ProductLaws | shared/fm_shared/model/evaluator.py:15-85 | So do products, with one neutral, and they distribute over sums. |
| EvaluatorLaws.UndoLaws | shared/fm_shared/model/evaluator.py:15-85 | Subtraction undoes addition, division by what is not zero multiplication, a number and its negation cancel; division by zero is an error. |
| EvaluatorLaws.OnNumbers | shared/fm_shared/model/evaluator.py:15-85 | On numbers the operators are those of arithmetic. |
| EvaluatorLaws.AbsIsLarger | shared/fm_shared/model/evaluator.py:27-31 | abs is the larger of a value and its negation. |
| EvaluatorLaws.ClampIsNearest | shared/fm_shared/model/evaluator.py:34-35 | clamp keeps a value within the bounds and takes the nearer bound outside; with crossed bounds the lower one. |
| EvaluatorLaws.IfElsePicks | shared/fm_shared/model/evaluator.py:38-39 | if_else takes its second argument if and only if the first is not zero, else the third. |
| EvaluatorLaws.ExtremesOfArguments | shared/fm_shared/model/evaluator.py:27-31 | min and max are values of arguments beyond which no argument lies. |
| EvaluatorLaws.EvaluatesIff | shared/fm_shared/model/evaluator.py:51-97 | An expression has a value if and only if it is made of numbers, names, the four operators, negation and builtins with the right number of arguments, all names are bound and no divisor is zero. |
| CalcGraphs.CycleSearch.Dfs | shared/fm_shared/model/graph.py:85-102 | From an unvisited node: a returned path is a closed walk along edges; without one the node is finished with all it reaches, and the open path is as before. |
| CalcGraphs.CycleSearch.ClosedWalk | shared/fm_shared/model/graph.py:96-98 | A successor on the recursion stack closes a cycle that starts at its position on the path. |
| CalcGraphs.CalcGraph.FromBlueprint | shared/fm_shared/model/graph.py:41-54 | Nodes, adjacency and in-degrees are those of the blueprint, dangling endpoints included. |
| CalcGraphs.CalcGraph.DetectCycles | shared/fm_shared/model/graph.py:77-109 | A reported path is a genuine cycle; none is reported if and only if no cycle is reachable from a declared node. |
| CalcGraphs.CalcGraph.TopoSort | shared/fm_shared/model/graph.py:56-75 | The first of the two raises of the cycle error happens if and only if a cycle is reachable. The second one, of the same error class, happens if and only if none is and the number of declared nodes held up by an undeclared source or cycle differs from the number of undeclared targets that are not. On a closed graph without cycles the result is a topological order of all nodes. |
| CalcGraphs.CalcGraph.Kahn | shared/fm_shared/model/graph.py:61-70 | The emission loop on any graph: no node twice, each after all its predecessors, and no scheduled node left whose predecessors are all emitted. |
| CalcGraphs.CalcGraph.Release | shared/fm_shared/model/graph.py:67-70 | Retiring the edges of one node lowers each in-degree by the number of its edges and queues exactly the nodes that become free. |
| Digraphs.CycleReachableMeaning | shared/fm_shared/model/graph.py:104-109 | The reachability notion used for the search is the usual one: a walk from a declared node onto a closed walk. |
| Digraphs.FinishOrderExcludesCycles | shared/fm_shared/model/graph.py:99-102 | A finishing order in which successors come first leaves no reachable cycle: what the search returning None proves. |
| Digraphs.NoEndlessRetreat | shared/fm_shared/model/graph.py:64-75 | No node can be left over: stepping back from a stranded node would never end. |
| Digraphs.KahnIsTotal | shared/fm_shared/model/graph.py:61-75 | On a closed acyclic graph every emission order is a topological order of all declared nodes, so the error branch is unreachable. |
| Digraphs.SameNodesEmitted | shared/fm_shared/model/graph.py:61-70 | Which nodes the emission loop emits depends on the graph alone, so the outcome of the length check does. |
| Digraphs.EmittedIff | shared/fm_shared/model/graph.py:61-70 | On any graph a node is emitted if and only if it is declared or a target, and no walk leads to it that meets a node twice or starts at a node that is neither. |
| Digraphs.LengthsMatchIff | shared/fm_shared/model/graph.py:71-75 | As many nodes are emitted as are declared if and only if as many declared ones are held up as undeclared targets are not. |
| Digraphs.DanglingTargets | shared/fm_shared/model/graph.py:71-75 | Where all sources are declared and no cycle is reachable, the length check passes if and only if all targets are. |
| Digraphs.DanglingSources | shared/fm_shared/model/graph.py:71-75 | Where all targets are declared and no cycle is reachable, it passes if and only if all sources are. |
| Digraphs.ClosedIsExact | shared/fm_shared/model/graph.py:71-75 | Without reachable cycles, the emitted order respects every edge and holds exactly the declared nodes if and only if every edge endpoint is declared. |
| Digraphs.LengthCheckCanBeFooled | shared/fm_shared/model/graph.py:71-75 | Concrete graph with one dangling source and one dangling target: the order has the right length and names an undeclared node. |
| Dataflow.ScheduleSolves | shared/fm_shared/model/engine.py:181-213 | The values written in place, node by node, solve the formula equations of the final series. |
| Dataflow.SolutionIsUnique | shared/fm_shared/model/engine.py:181-213 | There is no other solution. |
| Dataflow.ScheduleOrderIsImmaterial | shared/fm_shared/model/engine.py:155-213 | Every topological order of the nodes gives the same series. |
| Dataflow.StuckMeansUnsolvable | shared/fm_shared/model/engine.py:203-213 | If the schedule fails at some node and period, the equations have no solution at all. |
| Dataflow.StuckInEveryOrder | shared/fm_shared/model/engine.py:203-213 | A failure in one execution order is a failure in all of them. |
| Dataflow.LongerHorizonExtends | shared/fm_shared/model/engine.py:153-215 | A longer horizon extends the earlier periods and changes none of them. |
| Dataflow.MaskingIsInvisible | shared/fm_shared/model/engine.py:200-202 | In an order that respects the edges a node never sees whether later nodes have been written yet. |
| Dataflow.WriteKeepsStaged | shared/fm_shared/model/engine.py:192-208 | Writing the next node keeps everything staged before it. |
| Engine.EquationsAreLocal | shared/fm_shared/model/engine.py:164-208 | A node reads only the inputs its formula lists and its expression mentions. |
| Engine.RunSchedule | shared/fm_shared/model/engine.py:181-215 | For any node order: each node holds what its equation gives when later nodes still read zero; an error names a node whose evaluation fails. |
| Engine.RunPeriod | shared/fm_shared/model/engine.py:182-213 | One period of the schedule. |
| Engine.ComputeNode | shared/fm_shared/model/engine.py:183-213 | The value or error of one node: driver with ramp, no formula, missing input, failing formula. |
| Engine.RunEngine | shared/fm_shared/model/engine.py:131-215 | On a closed blueprint in which a walk along edges leads from each input a formula mentions to the formula: success if and only if there is no reachable cycle and the equations have a solution, and then the result is that solution. |
| Engine.ScheduleDecides | shared/fm_shared/model/engine.py:181-215 | Along a topological order the schedule succeeds if and only if the equations have a solution. |
| EngineLaws.FormulaHolds | shared/fm_shared/model/engine.py:162-213 | In every period of a solution a node whose formula combines two inputs is the sum, difference or product of their nodes, or their quotient, the divisor then not being zero. |
| EngineLaws.ReadsBinds | shared/fm_shared/model/engine.py:164-202 | A formula knows a node by its id without the prefix, by its driver reference, or by a reference it carries. |
| EngineLaws.TimeIsKnown | shared/fm_shared/model/engine.py:162-202 | Every formula knows the number of the period as t. |
| EngineLaws.IdleNode | shared/fm_shared/model/engine.py:183-208 | Nodes without a formula and driver nodes without a driver are zero. |
| EngineLaws.DriverNodeShows | shared/fm_shared/model/engine.py:95-191 | A driver node shows its driver; if a launched stream carries it, nothing before the launch, all of it after the ramp-up, and on a linear ramp as many parts as months have begun. |
| EngineLaws.LastNodeCounts | shared/fm_shared/model/engine.py:158-160 | A reference is carried by the last node with it. |
| EngineLaws.LastFormulaCounts | shared/fm_shared/model/graph.py:41-54 | A node has the last formula listed for it. |
| Engine.UncoveredInputReadsZero | shared/fm_shared/model/engine.py:162-202 | Two-node example: without a walk from the input to its reader an admissible order leaves the reader at zero, which does not solve its equation. |
| Digraphs.CanComeFirst | shared/fm_shared/model/graph.py:56-75 | Where no walk leads from k to n, some topological order puts n before k. |
| Dataflow.UncoveredGoesWrong | shared/fm_shared/model/engine.py:162-202 | On a closed acyclic graph, if no walk leads from an input to its reader, some system with those inputs is run in some topological order without being solved. |
| Dataflow.CoveredIffAlwaysSolved | shared/fm_shared/model/engine.py:162-215 | On a closed acyclic graph every system with given inputs is solved by its schedule in every topological order if and only if a walk leads from each input to its reader. |
| Engine.BuildRefMap | shared/fm_shared/model/engine.py:158-160 | Later nodes with the same reference win. |
| Drivers.StepSchedule | shared/fm_shared/model/engine.py:71-79 | The step loop keeps the last point reached, starting from the first one. |
| Drivers.LinearBetweenKnots | shared/fm_shared/model/engine.py:52-68 | Linear interpolation lies between the values of two neighbouring points and meets both, repeated months included: it comes in to the first point of a month and leaves from the last. |
| Drivers.StepwiseRampIsLateAtJumps | shared/fm_shared/model/engine.py:52-79 | A stepwise ramp equals the step schedule over the same points, months repeated or not, except exactly where the value last listed for the month differs from where the ramp stands: the first point in the first month, the last earlier point inside, nowhere in the last month. |
| Drivers.RampDriverIsLateAtJumps | shared/fm_shared/model/engine.py:32-79 | So a driver with a stepwise ramp has the value of one with a step schedule over the same points, listed in any order, if and only if the sorted points do not jump in that month. |
| DriverLaws.FlatDriver | shared/fm_shared/model/engine.py:34-49 | Constant drivers, and others without the schedule or factors of their kind, have their value in every period. |
| DriverLaws.SeasonsRepeat | shared/fm_shared/model/engine.py:41-49 | A seasonal driver is its value times the factor of the month, in every year. |
| DriverLaws.LinearRampIsProportional | shared/fm_shared/model/engine.py:52-68 | A linear ramp covers as much of the way from one point to the next as of the time between them. |
| DriverLaws.SCurveIsLogistic | shared/fm_shared/model/engine.py:108-126 | On an s-curve the launch factor is the logistic function of the position in the ramp. |
| DriverLaws.StepCurveWaits | shared/fm_shared/model/engine.py:108-126 | On a stepwise launch ramp nothing comes before its end. |
| DriverLaws.LastDriverCounts | shared/fm_shared/model/engine.py:82-92 | Of several drivers with one reference the last one listed counts. |
| DriverLaws.WorkingCapitalCounts | shared/fm_shared/model/engine.py:82-92 | The days of working capital replace all other drivers of their references. |
| DriverLaws.LastLaunchCounts | shared/fm_shared/model/engine.py:95-128 | The last launched stream that carries a reference sets its ramp. |
| DriverLaws.NoLaunch | shared/fm_shared/model/engine.py:95-128 | Without a launched stream a reference has no ramp. |
| Drivers.LateExample | shared/fm_shared/model/engine.py:60-79 | At an interior point with a new value the ramp still shows the old one. |
| Drivers.RepeatedLastMonthExample | shared/fm_shared/model/engine.py:58-59 | At a last month listed twice the two agree although the value changed. |
| Drivers.RepeatedFirstMonthExample | shared/fm_shared/model/engine.py:56-57 | At a first month listed twice with different values they differ. |
| Drivers.RampFactorRises | shared/fm_shared/model/engine.py:109-126 | For every curve the ramp factor lies in [0, 1] and never falls. |
| Drivers.RampScale | shared/fm_shared/model/engine.py:108-126 | The factors of one driver over the horizon. |
| Drivers.BuildRampFactors | shared/fm_shared/model/engine.py:95-128 | The table holds a ramp for exactly the volume drivers of launched streams, the last stream winning. |
| Drivers.CollectDriverValuesByRef | shared/fm_shared/model/engine.py:82-92 | The reference table: later drivers of the same reference win. |
| Drivers.ApplyOverrides | shared/fm_shared/model/engine.py:140-150 | The override loop updates each named driver in sequence and no other. |
| Drivers.LastValueOverrideWins | shared/fm_shared/model/engine.py:142-150 | After any sequence of overrides a driver is worth the last value override times the multipliers after it, in every period. |
| Drivers.MultipliersScaleConstantsOnly | shared/fm_shared/model/engine.py:150 | Without a value override, multipliers scale a constant driver and leave all others alone. |
| StableSort.SortProperties | shared/fm_shared/model/funding_waterfall.py:16-21 | Sorting by type permutes the facilities, orders them by key and keeps list order among equal types. |
| StableSort.TiesKeepListOrder | shared/fm_shared/model/funding_waterfall.py:16-21 | Facilities of one type keep their list order in either sorting. |
| FundingWaterfall.OrdersArePermutations | shared/fm_shared/model/funding_waterfall.py:16-21 | Draw and repay orders are permutations of the facilities. |
| FundingWaterfall.RepayReversesDrawIff | shared/fm_shared/model/funding_waterfall.py:16-21 | The repay order is the reverse of the draw order if and only if no two facilities share a type. |
| FundingWaterfall.TwoRevolversExample | shared/fm_shared/model/funding_waterfall.py:16-21 | Two revolvers are drawn and repaid in the same order, which is not the reverse. |
| Passes.DrawDownIsExact | shared/fm_shared/model/funding_waterfall.py:71-86 | The drawing loop draws in total min(shortfall, total headroom). |
| Passes.PayBackIsExact | shared/fm_shared/model/funding_waterfall.py:87-96 | The repaying loop repays in total min(excess, total balance). |
| Passes.DrawDownIsGreedy | shared/fm_shared/model/funding_waterfall.py:73-86 | A facility draws only if every earlier one is at its effective limit. |
| Passes.PayBackIsGreedy | shared/fm_shared/model/funding_waterfall.py:89-96 | A facility repays only if every earlier one in repay order is at zero. |
| Passes.DrawLoop | shared/fm_shared/model/funding_waterfall.py:71-86 | The in-place drawing loop, with its early exit, computes the pass. |
| Passes.RepayLoop | shared/fm_shared/model/funding_waterfall.py:87-96 | The in-place repaying loop, with its early exit, computes the pass. |
| Passes.DrawsRecordRises | shared/fm_shared/model/funding_waterfall.py:80-82 | The recorded draw of a facility in a period is the rise of its balance. |
| FundingWaterfall.ApplyFundingWaterfall | shared/fm_shared/model/funding_waterfall.py:43-114 | The period loop over all facilities computes the waterfall: cash after funding, draws, interest, overdraft interest and debt per period. |
| FundingWaterfall.FundPeriod | shared/fm_shared/model/funding_waterfall.py:66-96 | One period: draw below the minimum, repay above it, leave balances alone at it. |
| FundingWaterfall.InterestLoop | shared/fm_shared/model/funding_waterfall.py:98-107 | Interest of the outstanding balances, overdrafts also separately. |
| FundingWaterfall.BalancesStayWithinLimits | shared/fm_shared/model/funding_waterfall.py:64-96 | Over the whole run every balance stays between zero and its limit. |
| FundingWaterfall.FundingIsExact | shared/fm_shared/model/funding_waterfall.py:66-112 | In each period the cash added is the change in plug debt: min(shortfall, headroom) or minus min(excess, debt). |
| FundingWaterfall.DrawsInOrder | shared/fm_shared/model/funding_waterfall.py:73-86 | Drawing follows the draw order: who draws finds all earlier facilities exhausted. |
| FundingWaterfall.RepaysInOrder | shared/fm_shared/model/funding_waterfall.py:89-96 | Repaying follows the repay order: who repays finds all earlier facilities at zero. |
| WaterfallLaws.DrawnByPriority | shared/fm_shared/model/funding_waterfall.py:12-86 | If the balance of a facility rises in a period, every facility of a type before its own (revolver, trade finance, term loan, overdraft), and every earlier one of its type, stands at what it can lend. |
| WaterfallLaws.RepaidByPriority | shared/fm_shared/model/funding_waterfall.py:12-96 | If it falls, every facility of a type after its own, and every earlier one of its type, owes nothing any more. |
| WaterfallLaws.MovesOneWay | shared/fm_shared/model/funding_waterfall.py:66-96 | Balances rise only in periods below the minimum and fall only in periods above it. |
| WaterfallLaws.LendsWithinAsset | shared/fm_shared/model/funding_waterfall.py:74-77 | A linked facility can lend its limit or the advance on its asset, whichever is less, and nothing without a value of the asset. |
| WaterfallLaws.InterestIsATwelfth | shared/fm_shared/model/funding_waterfall.py:98-107 | Twelve times the interest of a period is the annual interest on the balances it leaves, on overdrafts for the overdraft line. |
| FundingWaterfall.DebtPathIsPooled | shared/fm_shared/model/funding_waterfall.py:59-112 | While no asset link holds a facility below its limit the total debt path is that of one pooled facility: clamp(previous + minimum - cash, 0, sum of limits). |
| FundingWaterfall.SlackIffCovered | shared/fm_shared/model/funding_waterfall.py:74-77 | An asset link leaves the limit as it is if and only if the asset at the advance rate covers it. |
| FundingWaterfall.DebtIgnoresFacilityOrder | shared/fm_shared/model/funding_waterfall.py:59-112 | The debt path does not depend on the order in which facilities are listed. |
| FundingWaterfall.LessCashMoreDebt | shared/fm_shared/model/funding_waterfall.py:59-112 | Pointwise lower cash gives pointwise higher debt. |
| FundingWaterfall.RecordedDraws | shared/fm_shared/model/funding_waterfall.py:80-82 | Recorded additional draws are exactly the rises of the balances over the run. |
| FundingWaterfall.IdleRun | shared/fm_shared/model/funding_waterfall.py:54-57 | Without facilities cash stays as it is and nothing is owed. |
| DebtSchedule.BalanceBounds | shared/fm_shared/model/debt.py:81-98 | Every balance stays within [0, limit * (1 + rate * pik / 12)] in every period. |
| DebtSchedule.RollForward | shared/fm_shared/model/debt.py:79-103 | A balance moves by draws less repayments plus capitalised interest if and only if its clamp does not bite, also across grace and conversion. |
| DebtSchedule.InterestIsSplit | shared/fm_shared/model/debt.py:95-102 | What is reported as interest and what is capitalised make the interest on the balance, neither part negative. |
| DebtSchedule.InterestIsATwelfth | shared/fm_shared/model/debt.py:81-102 | Twelve times a month of interest is the annual rate on the debt, its capitalised part the given share of that; nothing from a conversion on. |
| DebtSchedule.DrawnAsScheduled | shared/fm_shared/model/debt.py:35-94 | Until a conversion everything scheduled for a window is drawn in it. |
| DebtSchedule.PaidAsScheduled | shared/fm_shared/model/debt.py:41-94 | Until a conversion everything scheduled for a window is repaid a grace period later. |
| DebtSchedule.LoneRow | shared/fm_shared/model/debt.py:75-104 | The rows of a schedule of one facility are the interest, draws and repayments of its turns. |
| DebtSchedule.TotalRollForward | shared/fm_shared/model/debt.py:75-103 | Total debt moves by reported draws less reported repayments plus capitalised interest when no clamp bites. |
| DebtSchedule.ConversionIsNeutral | shared/fm_shared/model/debt.py:81-87 | The equity booked for a conversion equals the repayment reported and the debt removed if and only if it happens after month 0 or nothing was to be drawn in month 0. |
| DebtSchedule.MonthZeroConversionExample | shared/fm_shared/model/statements.py:114-120 | A facility drawn and converted in month 0 books equity no debt backs. |
| DebtSchedule.SplitIsTotalDebt | shared/fm_shared/model/debt.py:107-119 | Current plus non-current debt is the sum of the balances, and the non-current part is never negative. |
| DebtSchedule.DueIsRepaidIff | shared/fm_shared/model/debt.py:47-104 | What the twelve-month window counts as due equals what the periods of the plan in it then report as repaid, for every repayment schedule, if and only if the facility has no grace period, does not convert by the end of the window, and the window ends before the plan does: the window counts the month numbered by the horizon, which is no period. |
| DebtSchedule.GraceExample | shared/fm_shared/model/debt.py:90-117 | A repayment that grace puts off beyond the window is shown as current and not made in it. |
| DebtSchedule.ConversionExample | shared/fm_shared/model/debt.py:81-117 | A conversion in the window reports all that is owed as repaid, while the current portion shows a later repayment that is never made. |
| DebtSchedule.EndOfPlanExample | shared/fm_shared/model/debt.py:47-117 | In a plan of at most a year what is to be repaid in the month numbered by the horizon is shown as current, and no row of the schedule reports a repayment. |
| DebtSchedule.ScheduleFacility | shared/fm_shared/model/debt.py:75-104 | The period loop of one facility: balances and additions to the totals. |
| DebtSchedule.StepFacility | shared/fm_shared/model/debt.py:79-103 | One period: conversion, draw, shifted repayment, clamp, interest, capitalised part. |
| DebtSchedule.CalculateDebtSchedule | shared/fm_shared/model/debt.py:57-121 | The schedule of all facilities, plugs skipped. |
| Capex.AccumulatedClosedForm | shared/fm_shared/model/statements.py:90-98 | Accumulated depreciation is, item by item, (amount - residual) / life times the months taken, at most life. |
| Capex.NetAgainstResiduals | shared/fm_shared/model/statements.py:488-499 | Net property never falls below the residuals in service, and equals them if and only if every item in service is written down. |
| Capex.ComputeDaPerPeriod | shared/fm_shared/model/statements.py:90-98 | The loop over items and months gives each period the charges of the items in their lives. |
| Capex.ComputeGross | shared/fm_shared/model/statements.py:488-494 | The two loops give each period everything bought so far. |
| Capex.Accumulate | shared/fm_shared/model/statements.py:496-498 | The running total of the charges. |
| IncomeTax.CarryForwardClosedForm | shared/fm_shared/model/statements.py:141-158 | With carry-forward, cumulative taxable income is the running maximum of cumulative earnings, floored at zero, and the carried balance is that maximum minus cumulative earnings. |
| IncomeTax.CarryForwardIsLeast | shared/fm_shared/model/statements.py:141-158 | No way of charging that covers cumulative earnings, never negative and never refunding, charges less at any date. |
| IncomeTax.CarryForwardCovers | shared/fm_shared/model/statements.py:141-158 | Cumulative taxable income always covers cumulative earnings. |
| IncomeTax.CarryForwardNeverCosts | shared/fm_shared/model/statements.py:150-157 | Carry-forward never raises total tax, and leaves taxable income as it is if and only if no profit follows a loss that is still open. |
| IncomeTax.NetIncomeShift | shared/fm_shared/model/statements.py:355-372 | A period's net income falls by the earnings lost in it less the tax spared on them and on the losses carried in from earlier lost earnings. |
| IncomeTax.TaxableFalls | shared/fm_shared/model/statements.py:355-372 | Lost earnings lower cumulative taxable income, by at most what is lost. |
| StatementRows.FinancingIsFlows | shared/fm_shared/model/statements.py:265-298 | The balancing financing line is change in total debt plus equity raised less dividends, with initial equity minus initial cash added in period 0; for any waterfall debt and interest. |
| StatementRows.StatementsTie | shared/fm_shared/model/statements.py:218-298 | Assets equal liabilities plus equity; closing cash is opening cash plus net flow; each opening balance is the previous closing one. |
| StatementRows.RunTotals | shared/fm_shared/model/statements.py:186-298 | Over a whole run cash moves by the net flows, and financing brought in closing debt, equity raised and the opening gap less all dividends. |
| Reconciliation.IncomeAddsUp | shared/fm_shared/model/statements.py:141-183 | Each line of the income statement is the one above it less what lies between: costs, operating expenses, depreciation, all interest, tax. |
| Reconciliation.EquityReconciles | shared/fm_shared/model/statements.py:141-248 | Closing equity is the initial one, all revenue and raises, less all costs, operating expenses, depreciation, scheduled and extra interest, tax and dividends. |
| Reconciliation.OperatingIsDirect | shared/fm_shared/model/statements.py:265-280 | The indirect operating cash flow is the direct one: revenue less the rise of receivables, less what is paid for goods, operating expenses, interest and tax. |
| Reconciliation.OperationsReconcile | shared/fm_shared/model/statements.py:265-280 | The same over whole runs; investing has taken the gross property. |
| Reconciliation.CashLinesAre | shared/fm_shared/model/statements.py:265-298 | The lines of the cash flow are the scheduled draws, repayments and raises, and the dividends of the first build. |
| Reconciliation.BalanceAddsUp | shared/fm_shared/model/statements.py:204-248 | The subtotals of the balance sheet; waterfall debt is in total liabilities only. |
| Reconciliation.EarningsAre | shared/fm_shared/model/statements.py:141-149 | Cumulative earnings before tax are revenue less all costs and all interest. |
| Reconciliation.TaxReconciles | shared/fm_shared/model/statements.py:150-165 | With carry-forward all tax shown is the rate on the highest point that cumulative earnings have reached, or on zero. |
| Reconciliation.TaxOnProfit | shared/fm_shared/model/statements.py:150-165 | Without it the tax of a period is the rate on its own profit. |
| Reconciliation.LossesAre | shared/fm_shared/model/statements.py:150-165 | A profit is taxed but for the losses it uses, which leave the carried balance; a loss enters it. |
| Reconciliation.DividendsFollowPolicy | shared/fm_shared/model/statements.py:166-183 | Dividends are nothing, the fixed amount, or the ratio of a profit. |
| InterestEffects.DividendsLineIsStale | shared/fm_shared/model/statements.py:373-411 | Without carry-forward: the cash-flow dividends line differs from the income-statement one in a period if and only if the policy is a payout ratio, the period bears waterfall interest, and the ratio is positive and met a profit not wholly taxed away, or negative and meets a loss. |
| InterestEffects.DividendsLineIsStaleIff | shared/fm_shared/model/statements.py:355-411 | With or without carry-forward: it differs if and only if the policy is a payout ratio, the interest of the period is not made up for by the tax spared (on it and on losses earlier interest carries in), and net income, before or after, is on the side that is paid out. |
| StaleDividends.LoopLeavesStale | shared/fm_shared/model/statements.py:333-411 | After the whole loop, without carry-forward and with rates above zero: that is in the periods with plug debt. |
| StaleDividends.StaleFromTheStart | shared/fm_shared/model/statements.py:333-411 | Told from the first build: positive ratio, profit, and a shortfall that asks for plug debt leave the line stale. |
| StaleDividends.NoneStaleIffFunded | shared/fm_shared/model/statements.py:333-411 | With a positive ratio and a profit not wholly taxed away in every period, no period is left stale if and only if every period of the first build has its minimum cash or nobody who can lend. |
| StaleDividends.AmplePeriodStaysClear | shared/fm_shared/model/statements.py:333-411 | The loop leaves neither plug debt nor interest in a period whose cash in the first build covers the minimum, the summed limits and five passes of interest. |
| PlugExamples.StaleDividendsExample | shared/fm_shared/model/statements.py:301-411 | One period with an uncollected profit and one overdraft: the loop leaves the two lines different. |
| PlugExamples.CarriedInterestExample | shared/fm_shared/model/statements.py:333-376 | With carry-forward, the loop over a loss that must be borrowed for and a profit that repays it leaves no interest in the second period, and its line stale. |
| PlugExamples.LossYearExample | shared/fm_shared/model/statements.py:333-376 | Figures of which this holds: a loss of 100, a profit of 1000, half of it taxed and half of the rest paid out, an overdraft of 120 at twelve percent. |
| InterestEffects.EquityFalls | shared/fm_shared/model/statements.py:186-201 | More interest never means more equity, with carry-forward or without, unless more than the profit is paid out. |
| InterestEffects.EquityFallsAtMost | shared/fm_shared/model/statements.py:186-201 | Nor does equity fall by more than the extra interest, if between none and all of the profit is paid out. |
| StatementRows.TaxedIsHighWater | shared/fm_shared/model/statements.py:355-372 | The closed form of the carry-forward holds for the statements at any waterfall interest. |
| Statements.StatementLists.constructor | shared/fm_shared/model/statements.py:124-298 | The first build shows the statements without waterfall debt; the imbalance error cannot occur. |
| Statements.StatementLists.BuildIncomeStatement | shared/fm_shared/model/statements.py:124-183 | The loop with the carried balance gives each row. |
| Statements.StatementLists.AccumulateRe | shared/fm_shared/model/statements.py:186-201 | Equity after each period. |
| Statements.StatementLists.BuildBalanceSheet | shared/fm_shared/model/statements.py:204-248 | Each row with cash as balancing item. |
| Statements.StatementLists.BuildCashFlow | shared/fm_shared/model/statements.py:251-298 | Each row with financing as balancing item; the check inside never fails. |
| Statements.StatementLists.ApplyWaterfallLoop | shared/fm_shared/model/statements.py:301-411 | Rewriting the three lists in place gives the statements for the debt and interest of up to five passes. |
| Statements.StatementLists.RunPasses | shared/fm_shared/model/statements.py:333-353 | The pass loop with its early exit. |
| Statements.StatementLists.Recompute | shared/fm_shared/model/statements.py:355-411 | From the statements of one pass to those of the next. |
| Statements.StatementLists.ReviseIncome | shared/fm_shared/model/statements.py:357-376 | Changing the interest of a row gives the row built from scratch. |
| Statements.StatementLists.ReviseBalance | shared/fm_shared/model/statements.py:380-394 | Changing debt and equity of a row gives the row built from scratch. |
| Statements.StatementLists.ReviseCash | shared/fm_shared/model/statements.py:397-411 | Changing income and balances of a row gives the row built from scratch, dividends line aside. |
| WaterfallPasses.SettledIffFunded | shared/fm_shared/model/statements.py:342-349 | A pass is idle if and only if every period has its minimum cash or no facility can lend any more. |
| WaterfallPasses.DebtColumn | shared/fm_shared/model/statements.py:351-353 | The debt a pass adds in a period is the plug debt of its run and at most the sum of limits. |
| PlugDebts.PlugDebtBound | shared/fm_shared/model/statements.py:333-353 | Plug debt on the balance sheet is between zero and five times the summed limits. |
| PlugDebts.LoopEndsFunded | shared/fm_shared/model/statements.py:333-349 | Unless the loop makes all five passes, every period of the statements it leaves is funded or nobody can lend; it makes none if and only if that holds of the first build. |
| PlugDebts.PassMovesCash | shared/fm_shared/model/statements.py:355-389 | A pass moves cash by the debt it adds and by what its interest takes from equity. |
| PlugLimits.RoomForInterest | shared/fm_shared/model/statements.py:333-411 | At any interest rates: plug debt respects the summed limits if they cover every shortfall of the first build and, beyond the debt it asks for, leave room for what five passes of interest borrow on top, each pass at most a month's interest times 1 + 2 + ... + horizon of the one before. |
| PlugLimits.SecondPassOverdraws | shared/fm_shared/model/statements.py:333-411 | At any interest rates and with any asset links, with a tax rate in [0, 1] and payouts of at most the profit: a period whose shortfall exceeds the summed limits ends with more plug debt than may be lent in it. |
| PlugLimits.LimitsMustSuffice | shared/fm_shared/model/statements.py:333-411 | Where no asset link binds, plug debt within the summed limits means that they cover every shortfall of the first build, at any interest rates. |
| PlugLimits.PlugDebtWithinLimitsIff | shared/fm_shared/model/statements.py:333-353 | Without interest and while no asset link binds, plug debt respects the summed limits if and only if those are zero or cover every shortfall of the first build. |
| PlugExamples.OverdrawnExample | shared/fm_shared/model/statements.py:333-353 | One period with a loss above the limit of the only overdraft leaves more plug debt than that limit, at any rate. |
| PlugExamples.FiveTimesTheLimit | shared/fm_shared/model/statements.py:333-353 | One period and one overdraft without interest: plug debt is the shortfall of the first build, up to exactly five times the limit. |
| PlugExamples.InterestOverdrawsExample | shared/fm_shared/model/statements.py:333-411 | With any rate above zero a limit that just covers the shortfall is overdrawn: the second pass borrows for the interest of the first. |
| PlugExamples.ExcessPayoutExample | shared/fm_shared/model/statements.py:370-389 | For every payout ratio above one a plan whose shortfall exceeds the limit and is not overdrawn: interest lowers dividends by more than itself. |
| GeneratedStatements.GenerateStatements | shared/fm_shared/model/statements.py:414-549 | From configuration to statements: debt schedule without plugs, capital expenditure, equity raises, first build, waterfall only with plugs and a positive minimum. |
| GeneratedStatements.ComputeEquityRaises | shared/fm_shared/model/statements.py:101-121 | Raises inside the horizon plus conversions. |
| GeneratedStatements.ComputeInputs | shared/fm_shared/model/statements.py:449-499 | All per-period inputs of the three statements. |
| ConfigLaws.WorkingCapitalIsDays | shared/fm_shared/model/statements.py:449-487 | Receivables times the days of a period are revenue times the days of receivables; inventory and payables likewise against cost of sales. |
| ConfigLaws.InvestingIsSpend | shared/fm_shared/model/statements.py:265-292 | Investing takes what is bought in the period. |
| ConfigLaws.RaisesComeIn | shared/fm_shared/model/statements.py:101-113 | Over any number of periods the raises of their months come in, each once. |
| ConfigLaws.ConversionIsBooked | shared/fm_shared/model/statements.py:110-120 | The equity booked for a conversion is the conversion amount of the debt schedule, month 0 included. |
| ConfigLaws.ScheduleCarriesOver | shared/fm_shared/model/statements.py:449-499 | Debt lines, interest, draws and repayments are those of the debt schedule. |
| ConfigLaws.AssetsAreShown | shared/fm_shared/model/statements.py:333-345 | Facilities are linked to the receivables and the inventory of the balance sheet. |
| ConfigLaws.WaterfallMattersIff | shared/fm_shared/model/statements.py:500-549 | The waterfall changes the statements if and only if there is a plug, a positive minimum and a period of the first build below it in which some facility can lend. |
| GeneratedStatements.DepreciationTies | shared/fm_shared/model/statements.py:488-499 | Accumulated depreciation on the balance sheet is the sum of the charges in the income statement. |
| GeneratedStatements.DebtLinesAreBalances | shared/fm_shared/model/statements.py:222-227 | The two debt lines of the balance sheet are the balances of all scheduled facilities. |
| GeneratedStatements.ConversionsAreRepayments | shared/fm_shared/model/statements.py:110-120 | Equity booked for conversions after month 0 is what the debt schedule reports as repaid by them. |
| GeneratedStatements.FinancingSectionAddsUp | shared/fm_shared/model/statements.py:265-292 | The financing total equals its lines and capitalised interest, which no line shows: draws, repayments in cash, fresh equity, change in plug debt, dividends; conversions cancel out. |
| StatementLines.GetPeriodValues | shared/fm_shared/analysis/consolidation.py:54-86 | Line table of a statement in either form: own cells, value list, zeros; later rows replace earlier ones. |
| StatementLines.RowReads | shared/fm_shared/analysis/consolidation.py:54-86 | A row has its own number for a period, or that of its list, or zero; what cannot be read is zero. |
| StatementLines.NextRow | shared/fm_shared/analysis/consolidation.py:54-86 | A further row sets the line of its caption, or name without one, and no other. |
| StatementLines.LinesAreRead | shared/fm_shared/analysis/consolidation.py:54-86 | A line of a dictionary counts up to the horizon if it reaches that far, and as zeros otherwise. |
| StatementLines.RoundTrip | shared/fm_shared/analysis/consolidation.py:54-94 | Reading back the rows written for a table returns its lines, in alphabetical order. |
| Labels.BeforeMeans | shared/fm_shared/analysis/consolidation.py:91-94 | A label comes before those it begins, and before those it is smaller than in the first character that differs. |
| Labels.AlphabeticalIsUnique | shared/fm_shared/analysis/consolidation.py:91-94 | A set of labels has one alphabetical order. |
| FxTranslation.ThereAndBack | shared/fm_shared/analysis/consolidation.py:101-121 | With one direction of a pair in the table, the rates there and back multiply to one, or to zero if the rate is zero. |
| FxTranslation.TranslateStatements | shared/fm_shared/analysis/consolidation.py:138-184 | Translation with its shortcut, both rates and the translation reserve; one warning per missing rate. |
| FxTranslation.TranslatedLines | shared/fm_shared/analysis/consolidation.py:149-168 | Every income and cash line is multiplied by the average rate of its period, every balance line by the closing rate, shortcut or not. |
| TranslationLaws.TranslatedByTables | shared/fm_shared/analysis/consolidation.py:101-168 | Told from the tables: where one holds the pair, a line is multiplied by its number, or by the entry of the period or the last one of its list; where it holds the inverse pair, the result times that rate is the original, unless the rate is zero; else nothing changes. |
| TranslationLaws.TwoRatesExample | shared/fm_shared/analysis/consolidation.py:124-135 | With two rates in the list the first period has the first one and all later ones the second. |
| TranslationLaws.KeyLine | shared/fm_shared/analysis/consolidation.py:169-176 | The equity and the net income are the first lines with a fitting label, zeros without one. |
| FxTranslation.TranslationRoundTrip | shared/fm_shared/analysis/consolidation.py:101-168 | There and back returns a value of any of the three statements if and only if its rate is usable in that period or it is zero, short and empty rate lists included. |
| FxTranslation.ZeroRateExample | shared/fm_shared/analysis/consolidation.py:110-115 | A zero rate is inverted to one, so the value comes back as zero. |
| FxTranslation.AdjustmentsAccumulate | shared/fm_shared/analysis/consolidation.py:169-184 | Accumulated adjustments are translated equity less all translated net income. |
| TranslationLaws.ReserveAccumulates | shared/fm_shared/analysis/consolidation.py:138-184 | The reserve of translated statements, added up to any period, is the translated equity less all translated net income. |
| FxTranslation.AdjustmentDecomposes | shared/fm_shared/analysis/consolidation.py:178-183 | When equity changes only by profit, the adjustment is opening equity times the change of the closing rate plus profit times closing minus average rate. |
| Ledger.MergeInto | shared/fm_shared/analysis/consolidation.py:252-257 | Merging adds every line of the source, times a factor, to the target. |
| Ledger.PostedLines | shared/fm_shared/analysis/consolidation.py:252-257 | Every line is the sum of what was added to it. |
| Ledger.NetAfterPost | shared/fm_shared/analysis/consolidation.py:252-257 | Adding a series moves any weighted total by the weighted amount. |
| Ledger.ShareWeighs | shared/fm_shared/analysis/consolidation.py:279-295 | A share of a table weighs that share of its total. |
| Consolidation.EliminationNet | shared/fm_shared/analysis/consolidation.py:322-362 | What each kind of elimination takes out of any weighted total. |
| Consolidation.ConsolidatedNet | shared/fm_shared/analysis/consolidation.py:248-368 | A weighted total of a consolidated statement is the sum of full and proportional totals, associates' lines and eliminations. |
| ConsolidationLaws.ConsolidatedLine | shared/fm_shared/analysis/consolidation.py:248-362 | Every line but the minority line is the sum of the lines of full subsidiaries, the owned percentage of those of proportional ones and of the key figure of associates, less what each kind of elimination takes from it. |
| ConsolidationLaws.MinorityIsRest | shared/fm_shared/analysis/consolidation.py:264-276 | The minority figure is what full subsidiaries earn, or own, beyond the parent's percentage. |
| ConsolidationLaws.MinorityIsShown | shared/fm_shared/analysis/consolidation.py:364-368 | Unless it is zero throughout, income statement and balance sheet show it; the cash flow never does. |
| ConsolidationLaws.HoldingIsTranslated | shared/fm_shared/analysis/consolidation.py:232-246 | The lines an entity brings are its own, translated by the tables unless they are in the reporting currency. |
| ConsolidationLaws.EliminatingIsOptional | shared/fm_shared/analysis/consolidation.py:322-324 | Eliminations apply if and only if they are asked for. |
| Consolidation.BalanceSheetIdentity | shared/fm_shared/analysis/consolidation.py:248-368 | If the entities balance, the consolidated balance sheet does if and only if the associates' investment lines net to zero. |
| Consolidation.NoAssociatesNoGap | shared/fm_shared/analysis/consolidation.py:260-295 | Without associates it always balances. |
| Consolidation.CashFlowIdentity | shared/fm_shared/analysis/consolidation.py:340-368 | Cash-flow eliminations are one-sided and minority lines do not enter: an identity survives, for any weights, if and only if the weighted amounts of the eliminations cancel. |
| GroupStatements.CashEliminationExample | shared/fm_shared/analysis/consolidation.py:340-342 | One eliminated trade alone leaves operating cash flow at minus its amount, so the cash flow no longer adds up. |
| Consolidation.TranslationKeepsIdentity | shared/fm_shared/analysis/consolidation.py:233-240 | A statement that nets to zero in its own currency does so after translation. |
| Consolidation.ConsolidationPreservesIdentity | shared/fm_shared/analysis/consolidation.py:232-368 | From balanced local balance sheets of the fully and proportionally held entities, in any currencies, to the consolidated one: it balances if and only if the lines of the associates, whatever their own sheets, net to zero. |
| Consolidation.OrderIsImmaterial | shared/fm_shared/analysis/consolidation.py:242-372 | The order of translated holdings and of eliminations changes no row of any consolidated statement. |
| Consolidation.EntityOrderIsImmaterial | shared/fm_shared/analysis/consolidation.py:232-386 | Nor does the order in which entities and eliminations are listed, translation and minority shares included. |
| GroupStatements.Consolidate | shared/fm_shared/analysis/consolidation.py:187-386 | The run: translate, merge by treatment, eliminate, minority lines, sorted rows. |
| GroupStatements.TranslateEntity | shared/fm_shared/analysis/consolidation.py:233-240 | An entity in the reporting currency is taken as it is, any other is translated. |
| GroupStatements.PostEntity | shared/fm_shared/analysis/consolidation.py:260-319 | Full, proportional, associate and excluded entities. |
| GroupStatements.PostEliminations | shared/fm_shared/analysis/consolidation.py:322-362 | The eliminations one after the other. |
| GroupStatements.ComputeNci | shared/fm_shared/analysis/consolidation.py:264-276 | Minority shares of profit and equity of the fully consolidated entities. |
| GroupStatements.AssociateExample | shared/fm_shared/analysis/consolidation.py:298-319 | An associate held to one half with an equity of 100 leaves a gap of 50. |
| Ranking.Rank | tools/dtf/weekly_validator.py:65-78 | The sort-and-group loops assign every position its counting rank. |
| Ranking.RankGroup | tools/dtf/weekly_validator.py:70-77 | One group of equal values gets the average of the positions it fills. |
| Ranking.GroupRank | tools/dtf/weekly_validator.py:71-74 | The middle of a group of a sorted list is (number of smaller values) + (number of equal values + 1) / 2. |
| Ranking.RankSum | tools/dtf/weekly_validator.py:65-78 | Ranks sum to n (n + 1) / 2. |
| Ranking.RanksKeepOrder | tools/dtf/weekly_validator.py:65-78 | Ranks order positions as the values do; ties and only ties share a rank. |
| Ranking.RanksOfIncreasing | tools/dtf/weekly_validator.py:65-78 | A strictly increasing map of the values leaves the ranks as they are. |
| Ranking.SameOrderSameRanks | tools/dtf/weekly_validator.py:65-78 | Two lists have the same ranks if and only if they order all positions alike. |
| Ranking.OppositeOrderMirrorsRanks | tools/dtf/weekly_validator.py:65-78 | Reversing the order turns rank r into n + 1 - r. |
| InnerProducts.CauchySchwarz | tools/dtf/weekly_validator.py:86-88 | Numerator squared never exceeds the product of the squared denominators, and equality means proportional vectors. |
| Spearman.ComputeSpearmanIc | tools/dtf/weekly_validator.py:49-93 | The coefficient as computed: zero below two pairs or with a vanishing denominator. |
| Spearman.IcInUnit | tools/dtf/weekly_validator.py:80-93 | The coefficient lies in [-1, 1]. |
| Spearman.PerfectIffSameOrder | tools/dtf/weekly_validator.py:80-93 | It is 1 if and only if there are two pairs or more, both sides order them alike, and they are not all equal. |
| Spearman.WorstIffOppositeOrder | tools/dtf/weekly_validator.py:80-93 | It is -1 if and only if the sides order them oppositely and they are not all equal. |
| Spearman.NoSpreadIffConstant | tools/dtf/weekly_validator.py:87-91 | A denominator vanishes if and only if all values of that side are equal. |
| Spearman.ReversalNegates | tools/dtf/weekly_validator.py:80-93 | Reversing one side flips the sign. |
| Spearman.DescendingRanksAgree | tools/dtf/weekly_validator.py:13-15 | Ranking both sides in descending order, as the module text says, gives the same coefficient as the ascending code. |
| Spearman.OnlyOrderMatters | tools/dtf/weekly_validator.py:65-93 | Only the order of each side matters. |
| SpearmanValue.RanksAreCounting | tools/dtf/weekly_validator.py:65-78 | Without ties the ranks are the numbers 1 to n in some order. |
| SpearmanValue.SquaredDeviations | tools/dtf/weekly_validator.py:80-88 | Their squared deviations from the mean add up to n (n n - 1) / 12. |
| SpearmanValue.ValueWithoutTies | tools/dtf/weekly_validator.py:49-93 | Without ties the coefficient is 1 - 6 * (sum of squared rank differences) / (n (n n - 1)). |
| SpearmanValue.ValueInGeneral | tools/dtf/weekly_validator.py:80-93 | With ties or without, its square times both sums of squared deviations is the square of the sum of their products, and it has the sign of that sum. |
| SpearmanValue.NoValue | tools/dtf/weekly_validator.py:55-91 | It is zero below two pairs and when a side is constant. |
| SpearmanValue.OneHalfExample | tools/dtf/weekly_validator.py:80-93 | Ranks 1, 2, 3 against 1, 3, 2 give one half. |
| EigenLoop.ComputeEigenvalues | apps/web/components/CorrelationMatrixEditor.tsx:35-98 | The returned values are the diagonal of a matrix reached by the iteration in at most 100 n n steps, and fewer only after the convergence test; they sum to the trace. |
| EigenLoop.FindPivot | apps/web/components/CorrelationMatrixEditor.tsx:46-60 | The scan finds the first of the largest entries above the diagonal. |
| EigenLoop.PivotIsUnique | apps/web/components/CorrelationMatrixEditor.tsx:46-60 | There is only one first largest entry, so the iteration is determined. |
| EigenLoop.RotateInPlace | apps/web/components/CorrelationMatrixEditor.tsx:76-94 | The in-place updates give the rotated matrix. |
| EigenLoop.Iterate | apps/web/components/CorrelationMatrixEditor.tsx:44-95 | One iteration stops on a converged matrix or makes one rotation at the pivot. |
| Jacobi.TraceKept | apps/web/components/CorrelationMatrixEditor.tsx:81-84 | A rotation keeps the trace. |
| Jacobi.RotatedIsSymmetric | apps/web/components/CorrelationMatrixEditor.tsx:81-94 | A rotation keeps symmetry. |
| Jacobi.OffSquaresDrop | apps/web/components/CorrelationMatrixEditor.tsx:76-94 | The sum of squares off the diagonal drops by exactly twice the square of the pivot. |
| Jacobi.AllSquaresChange | apps/web/components/CorrelationMatrixEditor.tsx:76-94 | The sum of all squares drops by twice the square of what the exact rotation would leave at the pivot. |
| Jacobi.AngleAnnihilates | apps/web/components/CorrelationMatrixEditor.tsx:65-73 | The chosen angle annihilates the pivot if and only if the branch for nearly equal diagonal entries is not taken for different ones; the leftover is half their distance. |
| EigenRuns.StepKeeps | apps/web/components/CorrelationMatrixEditor.tsx:65-94 | One step: symmetry, trace, drop of the off-diagonal squares; the sum of all squares is kept if and only if the angle is exact. |
| EigenRuns.EveryStepShrinks | apps/web/components/CorrelationMatrixEditor.tsx:46-94 | Because the pivot is the largest entry, the off-diagonal squares shrink at least by 1 - 2 / (n (n - 1)) per step. |
| EigenRuns.RunKeeps | apps/web/components/CorrelationMatrixEditor.tsx:44-95 | Every run keeps size, symmetry and trace and never raises the sum of all squares. |
| EigenRuns.RunShrinks | apps/web/components/CorrelationMatrixEditor.tsx:44-95 | Off-diagonal squares fall geometrically over a run. |
| EigenSteps.DeviationTurns | apps/web/components/CorrelationMatrixEditor.tsx:76-94 | Rotating matrix and vector turns m v - d v, up to the leftover. |
| EigenSteps.StepForward | apps/web/components/CorrelationMatrixEditor.tsx:76-94 | A rotation carries approximate eigenvectors along. |
| EigenSteps.StepBackward | apps/web/components/CorrelationMatrixEditor.tsx:76-94 | Approximate eigenvectors of the rotated matrix come from the unrotated one. |
| EigenRuns.RunForward | apps/web/components/CorrelationMatrixEditor.tsx:44-95 | Over a run an approximate eigenvector of the input becomes one of the result, of the same length, up to the drift of the nearly-equal branch. |
| EigenRuns.RunBackward | apps/web/components/CorrelationMatrixEditor.tsx:44-95 | And back. |
| EigenBounds.IterationsConverge | apps/web/components/CorrelationMatrixEditor.tsx:44-97 | Returned values sum to the input trace; off-diagonal squares are at most (1 - 2 / (n (n - 1))) ^ steps of the input's. |
| EigenBounds.EveryEigenvalueIsFound | apps/web/components/CorrelationMatrixEditor.tsx:31-98 | Every eigenvalue of the input lies within (n - 1) mu + n * drift of a returned value, mu bounding what is left off the diagonal. |
| EigenBounds.EveryValueIsNearlyEigen | apps/web/components/CorrelationMatrixEditor.tsx:31-98 | Every returned value has a unit vector that the input maps to its multiple up to (n - 1) mu + drift. |
| EigenBounds.EntriesFromSquares | apps/web/components/CorrelationMatrixEditor.tsx:62-63 | What bounds the off-diagonal squares bounds every entry, so the two results also cover runs stopped by the iteration limit. |
| EigenConvergence.RoundHalves | apps/web/components/CorrelationMatrixEditor.tsx:44-95 | The shrinking of n (n - 1) / 2 rotations together at least halves the off-diagonal squares. |
| EigenConvergence.LoopConverges | apps/web/components/CorrelationMatrixEditor.tsx:44-97 | Where the off-diagonal squares sum to less than 10 ^ 36 the matrix left by the loop passes the convergence test, even after the last iteration allowed. |
| EigenConvergence.CorrelationsAreOrdinary | apps/web/components/CorrelationMatrixEditor.tsx:41-63 | Entries in [-1, 1] off the diagonal meet that bound up to size 10 ^ 18. |
| EigenConvergence.EigenvaluesWithinThreshold | apps/web/components/CorrelationMatrixEditor.tsx:31-98 | So for such a matrix every eigenvalue lies within (n - 1) 10 ^ -12 + n * drift of a returned value, which is at most (n - 1) 10 ^ -12 + 50 n n n 10 ^ -15, known before the run. |
| Markov.RenormalisedSumsToOne | tools/dtf/calibrate.py:112-132 | A renormalised row sums to one, whatever the entries were, the zero-total case included. |
| Markov.RenormalisedIsNonNegative | tools/dtf/calibrate.py:112-132 | It is non-negative if the entries and the new probability were. |
| Markov.RequestedProbabilityIff | tools/dtf/calibrate.py:123-132 | On any row, stochastic or not, the overridden entry ends at the requested probability if and only if the other entries make one with it, or zero is requested and they do not add up to zero, or everything adds up to zero and the uniform share is requested. |
| Markov.OverrideStoresRequestIff | tools/dtf/calibrate.py:209-268 | The accepted command, which fills missing states with zeros first, stores the probability it was asked for in exactly these cases, judged on the row before the command. |
| Markov.OverrideExample | tools/dtf/calibrate.py:123-132 | One half is requested where the other entries add up to one: one third is stored. |
| Markov.ProportionsKept | tools/dtf/calibrate.py:123-132 | The other entries keep their proportions. |
| Markov.OverrideMakesStochastic | tools/dtf/calibrate.py:216-268 | An accepted override makes its row complete and stochastic and touches no other; a rejected one changes nothing. |
| Markov.AcceptedIff | tools/dtf/calibrate.py:216-224 | A command is carried out if and only if both states are in 0 to 80 and the probability in [0, 1]. |
| Markov.SessionKeepsStochastic | tools/dtf/calibrate.py:209-268 | Over any sequence of commands stochastic rows stay so and touched rows become so. |
| Markov.SessionGivesStochasticMatrix | tools/dtf/calibrate.py:83-268 | After a session that started from, or overrode, every row the matrix is row-stochastic. |
| Markov.TransitionTable.Override | tools/dtf/calibrate.py:209-268 | The command: range checks in order, zero fill, renormalise, write back. |
| Markov.BuildMatrix | tools/dtf/calibrate.py:83-88 | Stored cells over zeros. |
| Markov.MatrixHolds | tools/dtf/calibrate.py:83-88 | The matrix holds what is stored for a pair of states, zero where nothing is. |
| Markov.MatrixRowSum | tools/dtf/calibrate.py:83-108 | A row has the same total in the matrix as in the table, missing entries or not. |
| Markov.ValidateRowSums | tools/dtf/calibrate.py:96-109 | Row sums and whether they are within the tolerance. |
| Markov.Validate | tools/dtf/calibrate.py:176-206 | The validation passes if and only if the probabilities of every row sum to one within the tolerance. |
| Markov.Inspect | tools/dtf/calibrate.py:158-166 | The steady-state estimate of a table. |
| PowerIteration.UniformIsDistribution | tools/dtf/calibrate.py:161 | The iteration starts from the distribution that gives all states the same weight. |
| PowerIteration.AdvanceKeepsMass | tools/dtf/calibrate.py:162-163 | A step keeps the total weight and its sign. |
| PowerIteration.StaysDistribution | tools/dtf/calibrate.py:160-166 | Every vector of the iteration is a probability distribution. |
| PowerIteration.Iterate | tools/dtf/calibrate.py:160-166 | The loop returns the vector before the first step that changes no entry by more than 10 ^ -12 and a hundred thousandth of it, or the last vector. |
| PowerIteration.SteadyIsNearlyStationary | tools/dtf/calibrate.py:160-166 | Stopping early means that a step changes all entries together by at most n / 10 ^ 12 and a hundred thousandth. |
| PowerIteration.StepFromState | tools/dtf/calibrate.py:162-163 | From one state a step leads to its row of the matrix. |
| PowerIteration.StepIsLinear | tools/dtf/calibrate.py:162-163 | From a mixture of vectors it leads to the same mixture of where it leads from them. |
| PowerIteration.AdvanceContracts | tools/dtf/calibrate.py:162-163 | A step never moves two vectors further apart. |
| PowerIteration.ChangesNeverGrow | tools/dtf/calibrate.py:160-166 | The change from one step to the next never grows. |
| PowerIteration.EstimateApproaches | tools/dtf/calibrate.py:160-166 | The estimate never moves away from a stationary vector: no earlier one was nearer to it. |

## Left out

- Engine.RunEngine: expressions are given as syntax trees, so parsing and its syntax errors are not modelled.
- Evaluator.EvalCoincidence: the power operator is left out, because its complex and overflowing results have no counterpart in the reals.
- CalcGraphs.CalcGraph.TopoSort: the search for a cycle among left-over nodes is represented by an error value; it is unreachable on closed blueprints.
- GeneratedStatements.GenerateStatements: classification of output nodes into revenue and cost of sales by keywords and revenue by segment are left out; revenue, costs and working-capital days per period are inputs.
- Statements.StatementLists.ReadSetup: asset values are read for the two linkable assets only, as the schema admits no others.
- GroupStatements.Consolidate: warnings of the integrity record are not collected; the loops of the three statements run one after the other instead of interleaved; the default of the closing-rate table is the caller's choice of two equal tables.
- EigenConvergence.LoopConverges: convergence within the iteration limit is claimed for off-diagonal squares that sum to less than 10 ^ 36 only; the error bounds hold for either way of stopping.
- PlugLimits.PlugDebtWithinLimitsIff: exact without interest only. With interest, what is necessary (LimitsMustSuffice) and what is sufficient (RoomForInterest) leave a gap: limits that cover the shortfalls but not the bound on five passes of interest.
- PlugLimits.RoomForInterest: where an asset link holds a facility below its limit only SecondPassOverdraws applies.
- PlugLimits.LimitsMustSuffice: where there is interest, payouts above the profit are excluded because the claim fails for them (PlugExamples.ExcessPayoutExample), and tax rates outside [0, 1], which the schema refuses (shared/fm_shared/model/schemas.py line 23).
- Markov.TransitionTable.Override: the database and the lookup of the latest matrix are left out; the table is a field.
- Markov.Inspect: picking the five most likely states for display is left out.
- Floating-point rounding, overflow and display formatting.
- All input and output: routers, database, queues, storage, authentication, mail, language models, rendering.
- Sampling, Cholesky factors, percentiles and valuation with fractional powers.
- KPIs, covenants, multiples, assignment and changeset status: single-branch formulas or status fields without an invariant.
- Deriving intercompany amounts from links and the positive-semidefinite check of the editor: single expressions over the parts modelled here.
