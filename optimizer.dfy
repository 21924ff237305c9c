/** `DynamicFleetOptimizer`: candidate edges, the 0/1 problem handed to the
    solver, extraction of the selected edges into assignment records, and the
    fleet metrics. Order and vehicle rows are addressed by position. */
module Optimizer {
  import opened Results
  import opened Fleet
  import opened CostModel
  import opened Matching

  /** Assumed cost of manual planning, rupees. */
  const MANUAL_BASELINE_COST: real := 150000.0
  /** Share of the realised CO2 counted as saved: the source counts 80% of the
      realised CO2 as saved, though its comment calls this a 20% reduction. */
  const CO2_SAVED_FACTOR: real := 0.8
  /** Fixed on-time improvement, percent. */
  const ONTIME_IMPROVE: real := 5.0

  /** The optimizer's state after its constructor: the orders, the vehicles that
      passed the availability filter, and the traffic frame. Nothing updates it later. */
  datatype FleetOptimizer = FleetOptimizer(orders: seq<Order>, vehicles: seq<Vehicle>, traffic: seq<TrafficSample>)

  /** `__init__`: keeps the orders and traffic, filters the vehicles. */
  function Init(orders: seq<Order>, vehicles: seq<Vehicle>, traffic: seq<TrafficSample>): (opt: FleetOptimizer)
    ensures opt.orders == orders && opt.traffic == traffic
    // the filtered frame, whose order and count `Fleet.AvailableLabelsAt`,
    // `Fleet.AvailableLabelsComplete` and `Fleet.AvailableLabelsIncreasing` fix
    ensures opt.vehicles == Available(vehicles)
    ensures |opt.vehicles| <= |vehicles|
    ensures forall k :: 0 <= k < |opt.vehicles| ==> opt.vehicles[k].status == AVAILABLE
    ensures forall k :: 0 <= k < |vehicles| && vehicles[k].status == AVAILABLE ==> vehicles[k] in opt.vehicles
  {
    forall k | 0 <= k < |vehicles| && vehicles[k].status == AVAILABLE
      ensures vehicles[k] in Available(vehicles)
    {
      AvailableMembers(vehicles, vehicles[k]);
    }
    FleetOptimizer(orders, Available(vehicles), traffic)
  }

  /** (i, j) is a pair of positions whose order and vehicle are compatible. */
  predicate IsCandidate(opt: FleetOptimizer, e: Edge) {
    e.0 < |opt.orders| && e.1 < |opt.vehicles| && IsCompatible(opt.orders[e.0], opt.vehicles[e.1])
  }

  /** The keys of the variable dictionary `x`. */
  ghost function CandidateEdges(opt: FleetOptimizer): (c: set<Edge>)
    ensures forall e: Edge :: e in c <==> IsCandidate(opt, e)
  {
    set i: nat, j: nat | i < |opt.orders| && j < |opt.vehicles| && IsCompatible(opt.orders[i], opt.vehicles[j]) :: (i, j)
  }

  /** Every vehicle paired with an order has a fuel efficiency one can divide by. */
  ghost predicate CostsDefined(opt: FleetOptimizer) {
    forall e: Edge :: IsCandidate(opt, e) ==> opt.vehicles[e.1].fuelEfficiency != 0.0
  }

  /** The order of candidate edge `e` has no traffic row. */
  predicate TrafficMissing(opt: FleetOptimizer, e: Edge)
    requires e.0 < |opt.orders|
  {
    Congestion(opt.traffic, opt.orders[e.0].id).None?
  }

  /** No candidate edge before `e` in loop order lacks a traffic row. */
  ghost predicate FirstMissing(opt: FleetOptimizer, e: Edge) {
    forall e': Edge :: IsCandidate(opt, e') && Before(e', e) ==> !TrafficMissing(opt, e')
  }

  /** Every order that has a candidate edge has a traffic row. */
  ghost predicate TrafficComplete(opt: FleetOptimizer) {
    forall e: Edge :: IsCandidate(opt, e) ==> !TrafficMissing(opt, e)
  }

  /** The edge has a cost: it is a candidate, its vehicle's fuel efficiency is
      nonzero, and its order has a traffic row. */
  predicate Priced(opt: FleetOptimizer, e: Edge) {
    IsCandidate(opt, e) && opt.vehicles[e.1].fuelEfficiency != 0.0 && !TrafficMissing(opt, e)
  }

  /** `compute_cost` of a priced edge. */
  function EdgeEstimate(opt: FleetOptimizer, e: Edge): Estimate
    requires Priced(opt, e)
  {
    ComputeCost(opt.traffic, opt.orders[e.0], opt.vehicles[e.1]).value
  }

  /** The objective's coefficients. */
  ghost function CostMap(opt: FleetOptimizer): map<Edge, real>
    requires CostsDefined(opt) && TrafficComplete(opt)
  {
    map e | e in CandidateEdges(opt) :: EdgeEstimate(opt, e).cost
  }

  /** The problem the source builds before `solver.Solve()`. */
  ghost function Formulation(opt: FleetOptimizer): (p: Problem)
    requires CostsDefined(opt) && TrafficComplete(opt)
    ensures WellFormed(p)
  {
    var c := CandidateEdges(opt);
    Problem(|opt.orders|, |opt.vehicles|, c, CostMap(opt),
            OrderRows(c, |opt.orders|, |opt.vehicles|), VehicleCols(c, |opt.orders|, |opt.vehicles|))
  }

  /** What the solver reports: a status, and the variables whose solution value exceeds 0.5. */
  datatype SolverReply = SolverReply(status: SolveStatus, chosen: set<Edge>)

  /** What the solver promises: when it says OPTIMAL, its choice is a feasible
      assignment of least objective for the problem it was given. */
  ghost predicate SolverContract(opt: FleetOptimizer, reply: SolverReply) {
    CostsDefined(opt) && TrafficComplete(opt) && reply.status == Optimal ==> IsOptimal(Formulation(opt), reply.chosen)
  }

  /** Python's `round()` to an integer: to the nearest, ties to the even neighbour. */
  function Round(x: real): (n: int)
    ensures x - 0.5 <= n as real <= x + 0.5
    ensures (n as real - x == 0.5 || x - n as real == 0.5) ==> n % 2 == 0
  {
    var f := x.Floor;
    var frac := x - f as real;
    if frac < 0.5 then f
    else if frac > 0.5 then f + 1
    else if f % 2 == 0 then f
    else f + 1
  }

  /** Kilograms of CO2 for serving the order of `e` with the vehicle of `e`. */
  function Co2(opt: FleetOptimizer, e: Edge): real
    requires e.0 < |opt.orders| && e.1 < |opt.vehicles|
  {
    opt.orders[e.0].distanceKm * opt.vehicles[e.1].co2PerKm
  }

  /** One row of the returned assignments frame. */
  datatype AssignmentRecord = AssignmentRecord(
    orderId: string,
    vehicleId: string,
    vehicleType: string,
    priority: string,
    distanceKm: real,
    estTimeMin: int,
    costInr: int,
    origin: string,
    destination: string,
    co2Kg: int)

  /** The record emitted for a selected edge. */
  function RecordFor(opt: FleetOptimizer, e: Edge): (r: AssignmentRecord)
    requires Priced(opt, e)
  {
    var o, v, est := opt.orders[e.0], opt.vehicles[e.1], EdgeEstimate(opt, e);
    AssignmentRecord(o.id, v.id, v.vehicleType, o.priority, o.distanceKm,
                     Round(est.timeMin), Round(est.cost), o.origin, o.destination, Round(Co2(opt, e)))
  }

  /** The `metrics` dictionary. */
  datatype FleetMetrics = FleetMetrics(costSaving: real, fuelSaved: real, co2Saved: real, ontimeImprove: real)

  function Metrics(totalCost: real, totalCo2: real): (m: FleetMetrics)
    ensures m.costSaving + totalCost == MANUAL_BASELINE_COST
    ensures m.fuelSaved * FUEL_PRICE_PER_L == totalCost
    ensures m.co2Saved == CO2_SAVED_FACTOR * totalCo2
    ensures m.ontimeImprove == ONTIME_IMPROVE
  {
    FleetMetrics(MANUAL_BASELINE_COST - totalCost, totalCost / FUEL_PRICE_PER_L, totalCo2 * CO2_SAVED_FACTOR, ONTIME_IMPROVE)
  }

  /** A finished run: the positions of the selected edges (one per record, same
      order), the records, the unrounded totals, and the metrics. */
  datatype Plan = Plan(
    selected: seq<Edge>,
    assignments: seq<AssignmentRecord>,
    totalCost: real,
    totalCo2: real,
    metrics: FleetMetrics)

  /** The first nested loop: one variable per compatible (order, vehicle) pair. */
  method BuildVariables(opt: FleetOptimizer) returns (x: set<Edge>)
    ensures x == CandidateEdges(opt)
  {
    x := {};
    for i := 0 to |opt.orders|
      invariant forall e: Edge :: e in x <==> IsCandidate(opt, e) && e.0 < i
    {
      for j := 0 to |opt.vehicles|
        invariant forall e: Edge :: e in x <==> IsCandidate(opt, e) && (e.0 < i || (e.0 == i && e.1 < j))
      {
        if IsCompatible(opt.orders[i], opt.vehicles[j]) {
          x := x + {(i, j)};
        }
      }
    }
  }

  /** The objective: the cost of every variable, in loop order; `compute_cost`
      fails at the first variable whose order has no traffic row. */
  method BuildObjective(opt: FleetOptimizer, x: set<Edge>) returns (r: Result<map<Edge, real>, CostError>)
    requires CostsDefined(opt) && x == CandidateEdges(opt)
    ensures r.Ok? <==> TrafficComplete(opt)
    ensures r.Err? ==> exists e: Edge :: IsCandidate(opt, e) && TrafficMissing(opt, e) && FirstMissing(opt, e)
                                   && r.error == MissingTraffic(opt.orders[e.0].id)
    ensures r.Ok? ==> r.value == CostMap(opt)
  {
    var objective: map<Edge, real> := map[];
    for i := 0 to |opt.orders|
      invariant forall e: Edge :: e in objective <==> IsCandidate(opt, e) && e.0 < i
      invariant forall e: Edge :: IsCandidate(opt, e) && e.0 < i ==> !TrafficMissing(opt, e)
      invariant forall e: Edge :: e in objective ==> objective[e] == EdgeEstimate(opt, e).cost
    {
      for j := 0 to |opt.vehicles|
        invariant forall e: Edge :: e in objective <==> IsCandidate(opt, e) && (e.0 < i || (e.0 == i && e.1 < j))
        invariant forall e: Edge :: IsCandidate(opt, e) && (e.0 < i || (e.0 == i && e.1 < j)) ==> !TrafficMissing(opt, e)
        invariant forall e: Edge :: e in objective ==> objective[e] == EdgeEstimate(opt, e).cost
      {
        if (i, j) in x {
          var est := ComputeCost(opt.traffic, opt.orders[i], opt.vehicles[j]);
          if est.Err? {
            assert TrafficMissing(opt, (i, j)) && FirstMissing(opt, (i, j));
            return Err(est.error);
          }
          objective := objective[(i, j) := est.value.cost];
        }
      }
    }
    assert objective.Keys == CostMap(opt).Keys;
    return Ok(objective);
  }

  /** The constraint loops: at most one variable per order row, per vehicle column. */
  method BuildConstraints(x: set<Edge>, n: nat, m: nat) returns (rows: seq<set<Edge>>, cols: seq<set<Edge>>)
    ensures rows == OrderRows(x, n, m) && cols == VehicleCols(x, n, m)
  {
    rows := [];
    for i := 0 to n
      invariant rows == OrderRows(x, i, m)
    {
      rows := rows + [OrderConstraint(x, i, m)];
    }
    cols := [];
    for j := 0 to m
      invariant |cols| == j && forall k :: 0 <= k < j ==> cols[k] == VehicleConstraint(x, k, n)
    {
      cols := cols + [VehicleConstraint(x, j, n)];
    }
  }

  /** Every edge of the list is priced. */
  predicate AllPriced(opt: FleetOptimizer, es: seq<Edge>) {
    forall k :: 0 <= k < |es| ==> Priced(opt, es[k])
  }

  /** The records of the priced edges of `es`, in order. */
  function Records(opt: FleetOptimizer, es: seq<Edge>): seq<AssignmentRecord> {
    if es == [] then []
    else
      var e := es[|es| - 1];
      Records(opt, es[..|es| - 1]) + if Priced(opt, e) then [RecordFor(opt, e)] else []
  }

  /** The sum of the (unrounded) costs of the priced edges of `es`, in order. */
  function TotalCost(opt: FleetOptimizer, es: seq<Edge>): real {
    if es == [] then 0.0
    else
      var e := es[|es| - 1];
      TotalCost(opt, es[..|es| - 1]) + if Priced(opt, e) then EdgeEstimate(opt, e).cost else 0.0
  }

  /** The sum of the CO2 of the priced edges of `es`, in order. */
  function SumCo2(opt: FleetOptimizer, es: seq<Edge>): real {
    if es == [] then 0.0
    else
      var e := es[|es| - 1];
      SumCo2(opt, es[..|es| - 1]) + if Priced(opt, e) then Co2(opt, e) else 0.0
  }

  /** Appending a priced edge appends its record and adds its cost and CO2. */
  lemma RecordsSnoc(opt: FleetOptimizer, es: seq<Edge>, e: Edge)
    requires Priced(opt, e)
    ensures Records(opt, es + [e]) == Records(opt, es) + [RecordFor(opt, e)]
    ensures TotalCost(opt, es + [e]) == TotalCost(opt, es) + EdgeEstimate(opt, e).cost
    ensures SumCo2(opt, es + [e]) == SumCo2(opt, es) + Co2(opt, e)
  {
    assert (es + [e])[..|es|] == es;
  }

  /** The inner extraction loop over the vehicles of order row `i`. */
  method ExtractRow(opt: FleetOptimizer, x: set<Edge>, chosen: set<Edge>, i: nat,
                    selected: seq<Edge>, records: seq<AssignmentRecord>, totalCost: real, totalCo2: real)
    returns (selected': seq<Edge>, records': seq<AssignmentRecord>, totalCost': real, totalCo2': real)
    requires i < |opt.orders|
    requires forall e: Edge :: e in x ==> Priced(opt, e)
    requires records == Records(opt, selected)
    requires totalCost == TotalCost(opt, selected) && totalCo2 == SumCo2(opt, selected)
    ensures selected' == selected + RowPicks(chosen * x, i, |opt.vehicles|)
    ensures records' == Records(opt, selected')
    ensures totalCost' == TotalCost(opt, selected') && totalCo2' == SumCo2(opt, selected')
  {
    ghost var s := chosen * x;
    selected', records', totalCost', totalCo2' := selected, records, totalCost, totalCo2;
    for j := 0 to |opt.vehicles|
      invariant selected' == selected + RowPicks(s, i, j)
      invariant records' == Records(opt, selected')
      invariant totalCost' == TotalCost(opt, selected') && totalCo2' == SumCo2(opt, selected')
    {
      if (i, j) in x && (i, j) in chosen {
        RecordsSnoc(opt, selected', (i, j));
        var est := EdgeEstimate(opt, (i, j));
        var co2 := Co2(opt, (i, j));
        records' := records' + [RecordFor(opt, (i, j))];
        selected' := selected' + [(i, j)];
        totalCost' := totalCost' + est.cost;
        totalCo2' := totalCo2' + co2;
      }
    }
  }

  /** The outer extraction loop over the order rows. */
  method ExtractGrid(opt: FleetOptimizer, x: set<Edge>, chosen: set<Edge>)
    returns (selected: seq<Edge>, records: seq<AssignmentRecord>, totalCost: real, totalCo2: real)
    requires forall e: Edge :: e in x ==> Priced(opt, e)
    ensures selected == Picks(chosen * x, |opt.orders|, |opt.vehicles|)
    ensures records == Records(opt, selected)
    ensures totalCost == TotalCost(opt, selected) && totalCo2 == SumCo2(opt, selected)
  {
    ghost var s := chosen * x;
    var m := |opt.vehicles|;
    selected, records, totalCost, totalCo2 := [], [], 0.0, 0.0;
    for i := 0 to |opt.orders|
      invariant selected == Picks(s, i, m)
      invariant records == Records(opt, selected)
      invariant totalCost == TotalCost(opt, selected) && totalCo2 == SumCo2(opt, selected)
    {
      selected, records, totalCost, totalCo2 := ExtractRow(opt, x, chosen, i, selected, records, totalCost, totalCo2);
    }
  }

  /** The extraction: only an OPTIMAL status reads the solution; for each cell in
      loop order whose variable the solver set, append a record and add its cost
      and CO2 to the totals. */
  method Extract(opt: FleetOptimizer, x: set<Edge>, reply: SolverReply)
    returns (selected: seq<Edge>, records: seq<AssignmentRecord>, totalCost: real, totalCo2: real)
    requires forall e: Edge :: e in x ==> Priced(opt, e)
    ensures selected == if reply.status == Optimal then Picks(reply.chosen * x, |opt.orders|, |opt.vehicles|) else []
    ensures records == Records(opt, selected)
    ensures totalCost == TotalCost(opt, selected) && totalCo2 == SumCo2(opt, selected)
  {
    if reply.status == Optimal {
      selected, records, totalCost, totalCo2 := ExtractGrid(opt, x, reply.chosen);
    } else {
      selected, records, totalCost, totalCo2 := [], [], 0.0, 0.0;
    }
  }

  /** `optimize()`. `reply` is what `solver.Solve()` answers on the problem built
      here; `SolverContract` is all the model knows of the solver. */
  method Optimize(opt: FleetOptimizer, reply: SolverReply) returns (r: Result<Plan, CostError>)
    requires CostsDefined(opt)
    requires SolverContract(opt, reply)
    // a missing traffic row fails the run, and only that does
    ensures r.Ok? <==> TrafficComplete(opt)
    ensures r.Err? ==> exists e: Edge :: IsCandidate(opt, e) && TrafficMissing(opt, e) && FirstMissing(opt, e)
                                   && r.error == MissingTraffic(opt.orders[e.0].id)
    // only compatible pairs of positions, listed in row-major order
    ensures r.Ok? ==> forall k :: 0 <= k < |r.value.selected| ==> IsCandidate(opt, r.value.selected[k])
    ensures r.Ok? ==> RowMajor(r.value.selected)
    // one record per selected edge, in the same order; totals are sums of unrounded values
    ensures r.Ok? ==> && AllPriced(opt, r.value.selected)
                      && |r.value.assignments| == |r.value.selected|
                      && r.value.assignments == Records(opt, r.value.selected)
                      && r.value.totalCost == TotalCost(opt, r.value.selected)
                      && r.value.totalCo2 == SumCo2(opt, r.value.selected)
    ensures r.Ok? ==> forall k :: 0 <= k < |r.value.selected| ==>
              Priced(opt, r.value.selected[k]) && ReportsEdge(opt, r.value.assignments[k], r.value.selected[k])
    ensures r.Ok? ==> r.value.metrics == Metrics(r.value.totalCost, r.value.totalCo2)
    // nothing to report unless the solver proved optimality over a nonempty candidate set
    ensures r.Ok? && (reply.status != Optimal || CandidateEdges(opt) == {}) ==>
              r.value.selected == [] && r.value.assignments == []
              && r.value.totalCost == 0.0 && r.value.totalCo2 == 0.0
              && r.value.metrics == FleetMetrics(MANUAL_BASELINE_COST, 0.0, 0.0, ONTIME_IMPROVE)
    // an optimal run lists exactly the solver's edges, one-to-one, at least cost
    ensures r.Ok? && reply.status == Optimal ==>
              && (forall e: Edge :: e in r.value.selected <==> e in reply.chosen)
              && OneToOne(r.value.selected)
              && forall t :: IsFeasible(Formulation(opt), t) ==> r.value.totalCost <= Objective(Formulation(opt), t)
  {
    var x := BuildVariables(opt);
    var objective := BuildObjective(opt, x);
    if objective.Err? {
      return Err(objective.error);
    }
    var n, m := |opt.orders|, |opt.vehicles|;
    var rows, cols := BuildConstraints(x, n, m);
    ghost var problem := Problem(n, m, x, objective.value, rows, cols);
    assert problem == Formulation(opt);
    var selected, records, totalCost, totalCo2 := Extract(opt, x, reply);
    PlanShape(opt, reply, selected);
    RecordsReportEdges(opt, selected);
    if reply.status == Optimal {
      PlanOptimal(opt, reply, selected, totalCost);
    }
    r := Ok(Plan(selected, records, totalCost, totalCo2, Metrics(totalCost, totalCo2)));
  }

  /** The extracted edges are candidates, in row-major order, and there are none
      when there is no candidate. */
  lemma PlanShape(opt: FleetOptimizer, reply: SolverReply, selected: seq<Edge>)
    requires selected == if reply.status == Optimal
                         then Picks(reply.chosen * CandidateEdges(opt), |opt.orders|, |opt.vehicles|) else []
    ensures forall k :: 0 <= k < |selected| ==> IsCandidate(opt, selected[k])
    ensures CostsDefined(opt) && TrafficComplete(opt) ==> AllPriced(opt, selected)
    ensures RowMajor(selected)
    ensures CandidateEdges(opt) == {} ==> selected == []
  {
    if reply.status == Optimal {
      var x, n, m := CandidateEdges(opt), |opt.orders|, |opt.vehicles|;
      PicksSpec(reply.chosen * x, n, m);
      if x == {} {
        PicksNothing(reply.chosen * x, n, m);
      }
      forall k | 0 <= k < |selected| ensures IsCandidate(opt, selected[k]) {
        assert selected[k] in selected;
      }
    }
  }

  /** When the solver reports OPTIMAL, the extracted edges are exactly its choice,
      one-to-one, and their total cost is no more than that of any feasible choice. */
  lemma PlanOptimal(opt: FleetOptimizer, reply: SolverReply, selected: seq<Edge>, totalCost: real)
    requires CostsDefined(opt) && TrafficComplete(opt) && SolverContract(opt, reply)
    requires reply.status == Optimal
    requires selected == Picks(reply.chosen * CandidateEdges(opt), |opt.orders|, |opt.vehicles|)
    requires AllPriced(opt, selected) && totalCost == TotalCost(opt, selected)
    ensures forall e: Edge :: e in selected <==> e in reply.chosen
    ensures OneToOne(selected)
    ensures forall t :: IsFeasible(Formulation(opt), t) ==> totalCost <= Objective(Formulation(opt), t)
  {
    var problem := Formulation(opt);
    OptimalPlan(opt, reply.chosen, problem);
    PicksSpec(reply.chosen, |opt.orders|, |opt.vehicles|);
    TotalCostIsObjectiveSum(opt, selected);
  }

  /** An optimal choice lies inside the candidate edges, and listing it in loop
      order uses each order and each vehicle at most once. */
  lemma OptimalPlan(opt: FleetOptimizer, chosen: set<Edge>, problem: Problem)
    requires CostsDefined(opt) && TrafficComplete(opt)
    requires problem == Formulation(opt) && IsOptimal(problem, chosen)
    ensures chosen * CandidateEdges(opt) == chosen
    ensures OneToOne(Picks(chosen, |opt.orders|, |opt.vehicles|))
    ensures Objective(problem, chosen) == SumCost(CostMap(opt), Picks(chosen, |opt.orders|, |opt.vehicles|))
  {
    FeasibleIffMatching(problem, chosen);
    SelectedMatchingOneToOne(chosen, |opt.orders|, |opt.vehicles|);
  }

  /** Summing `compute_cost` over priced edges gives the objective's sum of coefficients. */
  lemma {:induction false} TotalCostIsObjectiveSum(opt: FleetOptimizer, es: seq<Edge>)
    requires CostsDefined(opt) && TrafficComplete(opt) && AllPriced(opt, es)
    ensures TotalCost(opt, es) == SumCost(CostMap(opt), es)
  {
    if es != [] {
      TotalCostIsObjectiveSum(opt, es[..|es| - 1]);
    }
  }

  /** When every edge is priced there is one record per edge, the k-th for the k-th edge. */
  lemma {:induction false} RecordsAt(opt: FleetOptimizer, es: seq<Edge>)
    requires AllPriced(opt, es)
    ensures |Records(opt, es)| == |es|
    ensures forall k :: 0 <= k < |es| ==> Records(opt, es)[k] == RecordFor(opt, es[k])
  {
    if es != [] {
      RecordsAt(opt, es[..|es| - 1]);
    }
  }

  /** Record k reports the order and vehicle of edge k, and its time, cost and
      CO2 are those of edge k to within half a unit. */
  ghost predicate ReportsEdge(opt: FleetOptimizer, rec: AssignmentRecord, e: Edge)
    requires Priced(opt, e)
  {
    var o, v, est := opt.orders[e.0], opt.vehicles[e.1], EdgeEstimate(opt, e);
    && rec.orderId == o.id && rec.vehicleId == v.id && rec.vehicleType == v.vehicleType
    && rec.priority == o.priority && rec.distanceKm == o.distanceKm
    && rec.origin == o.origin && rec.destination == o.destination
    && rec.costInr as real - 0.5 <= est.cost <= rec.costInr as real + 0.5
    && rec.estTimeMin as real - 0.5 <= est.timeMin <= rec.estTimeMin as real + 0.5
    && rec.co2Kg as real - 0.5 <= Co2(opt, e) <= rec.co2Kg as real + 0.5
  }

  /** Each record of a list of priced edges reports the edge at the same index. */
  lemma RecordsReportEdges(opt: FleetOptimizer, es: seq<Edge>)
    requires AllPriced(opt, es)
    ensures |Records(opt, es)| == |es|
    ensures forall k :: 0 <= k < |es| ==> ReportsEdge(opt, Records(opt, es)[k], es[k])
  {
    RecordsAt(opt, es);
  }

  /** The edges an optimal run may return are exactly the matchings of candidate edges. */
  lemma FormulationFeasibleIffMatching(opt: FleetOptimizer, s: set<Edge>)
    requires CostsDefined(opt) && TrafficComplete(opt)
    ensures IsFeasible(Formulation(opt), s) <==> (forall e: Edge :: e in s ==> IsCandidate(opt, e)) && IsMatching(s)
  {
    FeasibleIffMatching(Formulation(opt), s);
  }

  /** When every order travels a positive distance on vehicles of positive fuel
      efficiency, every candidate costs something, and an OPTIMAL solution
      selects no edge at all: the run reports zero assignments. */
  lemma OptimalChoiceEmptyForPositiveDistances(opt: FleetOptimizer, reply: SolverReply)
    requires forall i :: 0 <= i < |opt.orders| ==> opt.orders[i].distanceKm > 0.0
    requires forall j :: 0 <= j < |opt.vehicles| ==> opt.vehicles[j].fuelEfficiency > 0.0
    requires TrafficComplete(opt)
    requires SolverContract(opt, reply) && reply.status == Optimal
    ensures reply.chosen == {}
  {
    assert CostsDefined(opt);
    var p := Formulation(opt);
    forall e | e in p.vars ensures p.cost[e] > 0.0 {
      CostPositive(opt.traffic, opt.orders[e.0], opt.vehicles[e.1]);
    }
    OptimalIsEmptyWhenCostsPositive(p, reply.chosen);
  }

  /** Every candidate edge of a freshly built optimizer pairs an order with an
      available vehicle of the input frame that can carry it. */
  lemma CandidatesUseAvailableVehicles(orders: seq<Order>, vehicles: seq<Vehicle>, traffic: seq<TrafficSample>, e: Edge)
    requires IsCandidate(Init(orders, vehicles, traffic), e)
    ensures Init(orders, vehicles, traffic).vehicles[e.1].status == AVAILABLE
    ensures Init(orders, vehicles, traffic).vehicles[e.1] in vehicles
    ensures IsCompatible(orders[e.0], Init(orders, vehicles, traffic).vehicles[e.1])
  {
    var v := Init(orders, vehicles, traffic).vehicles[e.1];
    AvailableMembers(vehicles, v);
  }

  /** An order heavier than every available vehicle's capacity has no candidate
      edge, so it never appears in an assignment. */
  lemma OverweightOrderUnassignable(opt: FleetOptimizer, i: nat)
    requires i < |opt.orders|
    requires forall j :: 0 <= j < |opt.vehicles| ==> opt.orders[i].weightKg > opt.vehicles[j].capacityKg
    ensures forall e: Edge :: IsCandidate(opt, e) ==> e.0 != i
  {
  }

  /** A temperature-controlled order with no refrigerated vehicle available has no candidate edge. */
  lemma ColdOrderWithoutReeferUnassignable(opt: FleetOptimizer, i: nat)
    requires i < |opt.orders| && opt.orders[i].specialHandling == TEMPERATURE_CONTROLLED
    requires forall j :: 0 <= j < |opt.vehicles| ==> !Strings.Contains(opt.vehicles[j].vehicleType, REFRIGERATED)
    ensures forall e: Edge :: IsCandidate(opt, e) ==> e.0 != i
  {
  }
}
