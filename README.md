# Dynamic fleet optimizer, modelled in Dafny

This project models `DynamicFleetOptimizer` from `optimizer.py`, which assigns
delivery orders to vehicles. Its parts:

- `__init__` keeps only the vehicles whose status is `Available`.
- `is_compatible` rules out a pair when the order is too heavy. It also rules
  out a temperature-controlled order on a vehicle whose type does not mention
  "Refrigerated".
- `compute_cost` estimates the transit time and the fuel cost of one pair.
- `optimize` builds a 0/1 program: one variable per compatible pair, minimise
  the summed cost, at most one vehicle per order and one order per vehicle.
  It hands the program to SCIP. When SCIP reports OPTIMAL, it lists the chosen
  pairs as records in row-major order, sums their unrounded costs and CO2, and
  derives the fleet metrics from those totals.

Modules, one file each:

- `Results` (results.dfy): `Option` and `Result`.
- `Strings` (strings.dfy): Python's substring test `sub in s`.
- `Fleet` (fleet.dfy): order and vehicle rows, the availability filter, the
  index labels that survive it, and `is_compatible`.
- `CostModel` (cost_model.dfy): the traffic lookup, the two multiplier rules,
  and `compute_cost`.
- `Matching` (matching.dfy): edges (order position, vehicle position), the
  row-major enumeration of the nested loops, and the 0/1 problem. The problem
  comes with its constraints, its objective, and what a feasible or an optimal
  choice is.
- `Optimizer` (optimizer.dfy): the optimizer after construction, a datatype,
  since nothing updates it later. Also `optimize` as a method, with one method
  per loop nest of the source, each proved against a specification function;
  the extraction nest is split into `ExtractGrid` (outer loop) and `ExtractRow`
  (inner loop), under `Extract`, which reads the solution only when OPTIMAL.
- `LabelIndexing` (labels.dfy): the source's mix of index labels and positions
  (see Findings).

The solver is a parameter `reply` (a status and the set of variables above
0.5), together with the only thing the model knows about SCIP,
`SolverContract`. It says: when the status is OPTIMAL, the set is a feasible
assignment of least objective for the problem that `optimize` built.

One consequence of the formulation: the code minimises cost under
at-most-one constraints only, so an empty choice (cost 0) is always feasible.
With positive distances and fuel efficiencies every candidate costs more
than 0, so the optimal choice is empty and `optimize` reports no assignment.
`Optimizer.OptimalChoiceEmptyForPositiveDistances` proves this. Assignments
can come out only when some candidate costs 0 or less.

## Model

| member | source | states |
|---|---|---|
| Fleet.Available | optimizer.py:9 | the filtered frame is no longer than the input, and every row kept is `Available` |
| Fleet.AvailableMembers | optimizer.py:9 | a vehicle is kept exactly when it is in the input and `Available` |
| Fleet.AvailableLabelsAt | optimizer.py:9 | row k of the filtered frame is the input row at label k |
| Fleet.AvailableLabelsComplete | optimizer.py:9 | a position of the input survives as a label exactly when its vehicle is `Available`, so no available row is dropped, duplicates included |
| Fleet.AvailableLabelsIncreasing | optimizer.py:9 | the surviving labels increase strictly with the row |
| Fleet.AllAvailable | optimizer.py:9 | when every vehicle is available, the filter keeps the frame unchanged and each label equals its position |
| Fleet.IsCompatible | optimizer.py:78-82 | a pair is compatible exactly when weight <= capacity and, for a temperature-controlled order, the type contains "Refrigerated" |
| Fleet.ColdChainNeedsRefrigeration | optimizer.py:80 | a temperature-controlled order is compatible only if "Refrigerated" occurs at some position of the type, and a light enough order on such a vehicle is always compatible |
| Strings.ContainsIffOccurs | optimizer.py:23-26 | the recursive substring test holds exactly when the substring occurs at some offset |
| Strings.LongerNotContained | optimizer.py:23-26 | a string never contains a longer one |
| CostModel.CongestionSpec | optimizer.py:17 | there is no congestion exactly when no traffic row has the order id; otherwise it is that of the first matching row |
| CostModel.ComputeCost | optimizer.py:13-31 | an error exactly when the order has no traffic row, naming that order; otherwise time = (dist/50*60 + delay)*(1+congestion) and cost = dist*(100/efficiency)*type multiplier*priority multiplier |
| CostModel.TypeMultiplier | optimizer.py:23-26 | the type multiplier lies between 0.8 and 1.5 |
| CostModel.TypeMultiplierIsFirstMatch | optimizer.py:23-26 | the if/elif chain equals the first-match rule over the ordered table Truck 1.2, Van 1.0, Bike 0.8, Refrigerated 1.5, default 1.0 |
| CostModel.RefrigeratedTruckPricedAsTruck | optimizer.py:23-26 | "Refrigerated Truck" gets the Truck multiplier 1.2, because the Truck branch comes first |
| CostModel.PriorityMultiplier | optimizer.py:28-29 | the priority multiplier lies between 1.0 and 1.5 |
| CostModel.PriorityTierOrder | optimizer.py:28-29 | Express > Standard > Economy, and an unknown tier gets Economy's multiplier 1.0 |
| CostModel.CostPositive | optimizer.py:20-29 | positive distance and fuel efficiency give a positive cost, whatever the type and priority |
| CostModel.CostIgnoresTraffic | optimizer.py:13-31 | the cost depends neither on the traffic delay nor on the congestion value |
| CostModel.StandardVanScenario | optimizer.py:13-31 | a 100 km Standard order on a 10 km/L Van with congestion 0.1 takes 132 minutes and costs 1200 |
| Matching.RowPicksSpec | optimizer.py:57-58 | one row of the inner loop selects exactly the chosen variables of that row, in column order |
| Matching.PicksSpec | optimizer.py:56-58 | the nested loops select exactly the chosen variables inside the grid, in row-major order |
| Matching.PicksNothing | optimizer.py:56-58 | a choice with no variable inside the grid selects nothing |
| Matching.SumCostPositive | optimizer.py:42-43 | a sum of positive costs is at least 0, and more than 0 once it has a term |
| Matching.AtMostOneElement | optimizer.py:47-49 | a `Sum <= 1` over 0/1 variables holds exactly when no two distinct variables are set |
| Matching.FeasibleIffMatching | optimizer.py:46-49 | a choice meets the row and column constraints exactly when it is a matching within the variables |
| Matching.EmptyChoice | optimizer.py:46-49 | choosing nothing is always feasible and costs 0 |
| Matching.ObjectivePositive | optimizer.py:42-43 | with positive costs, every nonempty choice has a positive objective |
| Matching.OptimalIsEmptyWhenCostsPositive | optimizer.py:42-49 | with positive costs, an optimal choice is empty |
| Matching.SelectedMatchingOneToOne | optimizer.py:46-58 | listing a matching in loop order repeats no order and no vehicle |
| Optimizer.Init | optimizer.py:7-11 | orders and traffic are kept; the vehicles are the filtered frame in input order, so they are all available and every available input vehicle is kept |
| Optimizer.CandidatesUseAvailableVehicles | optimizer.py:36-39 | every candidate pairs an order with an available vehicle of the input frame that can carry it |
| Optimizer.Round | optimizer.py:65-66 | `round()` lands within 0.5 of its argument, and a tie goes to the even neighbour |
| Optimizer.Metrics | optimizer.py:71-75 | cost_saving + total_cost = 150000, fuel_saved*100 = total_cost, co2_saved = 0.8*total_co2, ontime_improve = 5.0 |
| Optimizer.BuildVariables | optimizer.py:35-39 | the variables are exactly the compatible (order, vehicle) position pairs |
| Optimizer.BuildObjective | optimizer.py:42-43 | the objective builds exactly when every candidate's order has a traffic row, and its coefficients are then the candidates' costs; otherwise the error names the order of the first candidate in loop order without a traffic row |
| Optimizer.BuildConstraints | optimizer.py:46-49 | one at-most-one constraint per order row and per vehicle column, over that row's or column's variables |
| Optimizer.RecordsSnoc | optimizer.py:59-69 | appending a priced edge appends its record and adds its cost and CO2 to the sums |
| Optimizer.ExtractRow | optimizer.py:57-69 | the inner loop appends the chosen variables of one row, with their records, costs and CO2 |
| Optimizer.ExtractGrid | optimizer.py:56-69 | the outer loop lists the chosen variables in row-major order, with one record each and the sums of the unrounded cost and CO2 |
| Optimizer.Extract | optimizer.py:55-69 | nothing is read unless the status is OPTIMAL; otherwise the result is as for `ExtractGrid` |
| Optimizer.RecordsAt | optimizer.py:63-67 | there is one record per selected edge, and the k-th is that edge's record |
| Optimizer.RecordsReportEdges | optimizer.py:59-67 | record k carries the ids, vehicle type, priority, distance, origin and destination of edge k, and its time, cost and CO2 lie within 0.5 of that edge's unrounded estimates |
| Optimizer.TotalCostIsObjectiveSum | optimizer.py:42-43 | the summed `compute_cost` of the selected edges equals the objective's sum of coefficients over them |
| Optimizer.PlanShape | optimizer.py:56-58 | the extracted edges are candidates with costs, listed in row-major order, and there are none when there is no candidate |
| Optimizer.OptimalPlan | optimizer.py:42-51 | an optimal choice lies within the candidates, is listed one-to-one, and its objective is the sum over that list |
| Optimizer.PlanOptimal | optimizer.py:42-69 | under OPTIMAL, the extracted edges are exactly the solver's choice, one-to-one, and cost no more than any feasible choice |
| Optimizer.Optimize | optimizer.py:33-76 | fails exactly when a candidate order lacks traffic (at the first such candidate); otherwise only compatible pairs, row-major, one record each reporting its edge, totals equal to the unrounded sums, metrics from the totals, an empty plan with metrics (150000, 0, 0, 5.0) unless OPTIMAL over a nonempty candidate set, and under OPTIMAL exactly the solver's edges, one-to-one, at least cost |
| Optimizer.FormulationFeasibleIffMatching | optimizer.py:46-49 | a choice is feasible for the built problem exactly when it is a matching of candidate edges |
| Optimizer.OptimalChoiceEmptyForPositiveDistances | optimizer.py:42-51 | with positive distances and fuel efficiencies, an OPTIMAL reply chooses nothing |
| Optimizer.OverweightOrderUnassignable | optimizer.py:79 | an order heavier than every available vehicle has no candidate edge |
| Optimizer.ColdOrderWithoutReeferUnassignable | optimizer.py:80 | a temperature-controlled order with no refrigerated vehicle available has no candidate edge |
| LabelIndexing.VariableKeysAsWritten | optimizer.py:36-39 | every compatible pair is keyed by (order label, vehicle label), and every key is such a pair |
| LabelIndexing.LookedUpPairsAsWritten | optimizer.py:42-49 | the position pairs that the later loops find in `x` are those keys that are also positions |
| LabelIndexing.LabelMismatchExample | optimizer.py:36-49 | one filtered-out vehicle is enough for a position lookup to hit an incompatible vehicle and to miss a compatible one |
| LabelIndexing.LookedUpPairsAgreeWhenAllAvailable | optimizer.py:36-49 | when every vehicle is available, the pairs looked up are exactly the candidate edges |

## Left out

- The OR-Tools/SCIP solver: only its answer is modelled, through `SolverContract`. Variable names, `BoolVar`, and solution values other than the "above 0.5" set are not modelled. All seven result statuses are modelled (`SolveStatus`), and every status other than OPTIMAL yields the empty plan, but nothing is known of what the solver promises under those statuses.
- Floating point: all arithmetic is over `real`, and `round()` is banker's rounding of the exact value.
- CostModel.ComputeCost: requires a nonzero fuel efficiency. With numpy, a zero efficiency gives an infinite cost, which has no counterpart over `real`.
- Optimizer.Optimize: requires a nonzero fuel efficiency for every compatible vehicle (`CostsDefined`), for the same reason.
- Optimizer.Optimize: orders and vehicles are addressed by position. This agrees with the source only when the vehicle labels are positions; the label-keyed version is in `LabelIndexing` (see Findings). The model assumes that the orders frame and the unfiltered vehicles frame carry the default index 0, 1, 2, ...; nothing in the repository constructs the optimizer, so no caller fixes the index.
- The `historical` constructor argument and the `numpy` import are unused by the core.
- The pandas `DataFrame` that `optimize` returns is modelled as a sequence of records in the same order.
- predictor.py (a scikit-learn regressor) and streamlit_app.py (UI, file I/O, charts) are not part of this model.

## Findings

| source | as written | input that shows it | evidently intended | confidence | as-written member | corrected member |
|---|---|---|---|---|---|---|
| optimizer.py:36-49 | variables are keyed by the vehicle's index label from `iterrows()`, but the objective, the constraints and the extraction look them up by position and price them with `iloc` | one 10 kg order; vehicles [in-transit truck, 20 kg van, 5 kg bike]. The only key is (0, 1), for the van; by position it names the bike, which cannot carry the order, and the compatible van at position 0 is never looked up | key the variables by position (or look them up by label), so that each variable refers to the pair it was created for | not executed | LabelIndexing.LabelMismatchExample | Optimizer.BuildVariables |
