/** The 0/1 assignment problem over (order position, vehicle position) edges:
    its variables, its objective, its two families of at-most-one constraints,
    and what a feasible or optimal choice of edges is. */
module Matching {

  /** (order position, vehicle position). */
  type Edge = (nat, nat)

  /** `a` comes before `b` when both loops run `for i ...: for j ...`. */
  predicate Before(a: Edge, b: Edge) {
    a.0 < b.0 || (a.0 == b.0 && a.1 < b.1)
  }

  /** Strictly increasing in row-major order (so also free of repeats). */
  predicate RowMajor(es: seq<Edge>) {
    forall a, b :: 0 <= a < b < |es| ==> Before(es[a], es[b])
  }

  /** The edges (i, 0), ..., (i, j - 1) of row `i` that lie in `s`, in the order
      of the inner loop over vehicles. */
  function RowPicks(s: set<Edge>, i: nat, j: nat): seq<Edge> {
    if j == 0 then [] else RowPicks(s, i, j - 1) + (if (i, j - 1) in s then [(i, j - 1)] else [])
  }

  /** The edges of `s` in the first `n` rows of an n-by-m grid, in the order in
      which the nested loops over orders and vehicles reach them. */
  function Picks(s: set<Edge>, n: nat, m: nat): seq<Edge> {
    if n == 0 then [] else Picks(s, n - 1, m) + RowPicks(s, n - 1, m)
  }

  /** A row's picks are exactly the edges of `s` in that row below column `j`, in column order. */
  lemma {:induction false} RowPicksSpec(s: set<Edge>, i: nat, j: nat)
    ensures forall e :: e in RowPicks(s, i, j) <==> e in s && e.0 == i && e.1 < j
    ensures RowMajor(RowPicks(s, i, j))
  {
    if j > 0 {
      RowPicksSpec(s, i, j - 1);
    }
  }

  /** The picks are exactly the edges of `s` inside the grid, in row-major order. */
  lemma {:induction false} PicksSpec(s: set<Edge>, n: nat, m: nat)
    ensures forall e :: e in Picks(s, n, m) <==> e in s && e.0 < n && e.1 < m
    ensures RowMajor(Picks(s, n, m))
  {
    if n > 0 {
      PicksSpec(s, n - 1, m);
      RowPicksSpec(s, n - 1, m);
      var front, row := Picks(s, n - 1, m), RowPicks(s, n - 1, m);
      forall a, b | 0 <= a < |front| && 0 <= b < |row| ensures Before(front[a], row[b]) {
        assert front[a] in front && row[b] in row;
      }
    }
  }

  /** A set with no edge inside the grid picks nothing. */
  lemma {:induction false} PicksNothing(s: set<Edge>, n: nat, m: nat)
    requires forall e :: e in s ==> e.0 >= n || e.1 >= m
    ensures Picks(s, n, m) == []
  {
    PicksSpec(s, n, m);
    if Picks(s, n, m) != [] {
      assert Picks(s, n, m)[0] in Picks(s, n, m);
    }
  }

  /** The sum of the costs along `es` (cells without a cost add nothing). */
  function SumCost(cost: map<Edge, real>, es: seq<Edge>): real {
    if es == [] then 0.0
    else SumCost(cost, es[..|es| - 1]) + (if es[|es| - 1] in cost then cost[es[|es| - 1]] else 0.0)
  }

  /** A sum of positive costs is positive once it has a term. */
  lemma {:induction false} SumCostPositive(cost: map<Edge, real>, es: seq<Edge>)
    requires forall e :: e in es ==> e in cost && cost[e] > 0.0
    ensures SumCost(cost, es) >= 0.0
    ensures es != [] ==> SumCost(cost, es) > 0.0
  {
    if es != [] {
      SumCostPositive(cost, es[..|es| - 1]);
      assert es[|es| - 1] in es;
    }
  }

  /** One problem as handed to the solver: `orders` by `vehicles` positions, one
      0/1 variable per edge in `vars`, a cost per variable, and one at-most-one
      constraint per order row and per vehicle column. */
  datatype Problem = Problem(
    orders: nat,
    vehicles: nat,
    vars: set<Edge>,
    cost: map<Edge, real>,
    orderRows: seq<set<Edge>>,
    vehicleCols: seq<set<Edge>>)

  /** The solver's status codes. */
  datatype SolveStatus = Optimal | FeasibleNotProven | Infeasible | Unbounded | Abnormal | ModelInvalid | NotSolved

  /** The variables of row `i` that the order constraint sums. */
  function OrderConstraint(vars: set<Edge>, i: nat, m: nat): (c: set<Edge>)
    ensures forall e :: e in c <==> e in vars && e.0 == i && e.1 < m
  {
    set j: nat | j < m && (i, j) in vars :: (i, j)
  }

  /** The variables of column `j` that the vehicle constraint sums. */
  function VehicleConstraint(vars: set<Edge>, j: nat, n: nat): (c: set<Edge>)
    ensures forall e :: e in c <==> e in vars && e.1 == j && e.0 < n
  {
    set i: nat | i < n && (i, j) in vars :: (i, j)
  }

  ghost function OrderRows(vars: set<Edge>, n: nat, m: nat): seq<set<Edge>> {
    seq(n, i requires 0 <= i < n => OrderConstraint(vars, i, m))
  }

  ghost function VehicleCols(vars: set<Edge>, n: nat, m: nat): seq<set<Edge>> {
    seq(m, j requires 0 <= j < m => VehicleConstraint(vars, j, n))
  }

  /** The problem has the shape the optimizer builds: variables inside the grid,
      one cost for each variable, and the row and column constraints over them. */
  ghost predicate WellFormed(p: Problem) {
    && (forall e :: e in p.vars ==> e.0 < p.orders && e.1 < p.vehicles)
    && p.cost.Keys == p.vars
    && p.orderRows == OrderRows(p.vars, p.orders, p.vehicles)
    && p.vehicleCols == VehicleCols(p.vars, p.orders, p.vehicles)
  }

  /** A 0/1 assignment (the set of variables at 1) meeting every constraint. */
  ghost predicate IsFeasible(p: Problem, s: set<Edge>) {
    && s <= p.vars
    && (forall k :: 0 <= k < |p.orderRows| ==> |s * p.orderRows[k]| <= 1)
    && (forall k :: 0 <= k < |p.vehicleCols| ==> |s * p.vehicleCols[k]| <= 1)
  }

  /** The objective `sum cost[i, j] * x[i, j]`, summed in loop order. */
  function Objective(p: Problem, s: set<Edge>): real {
    SumCost(p.cost, Picks(s * p.vars, p.orders, p.vehicles))
  }

  /** A feasible assignment of least objective. */
  ghost predicate IsOptimal(p: Problem, s: set<Edge>) {
    IsFeasible(p, s) && forall t :: IsFeasible(p, t) ==> Objective(p, s) <= Objective(p, t)
  }

  /** No two edges share an order, and no two share a vehicle. */
  predicate IsMatching(s: set<Edge>) {
    forall a, b :: a in s && b in s && (a.0 == b.0 || a.1 == b.1) ==> a == b
  }

  /** A set has at most one element exactly when it has no two distinct ones. */
  lemma AtMostOneElement(c: set<Edge>)
    ensures |c| <= 1 <==> forall a, b :: a in c && b in c ==> a == b
  {
    if |c| > 1 {
      var a :| a in c;
      assert |c - {a}| == |c| - 1;
      var b :| b in c - {a};
      assert a != b;
    }
    if exists a, b :: a in c && b in c && a != b {
      var a, b :| a in c && b in c && a != b;
      assert {a, b} <= c;
      assert |{a, b}| == 2;
      assert |c| == |c - {a, b}| + |{a, b}|;
    }
  }

  /** On a well-formed problem the constraints say exactly: a matching inside the
      candidate edges. */
  lemma FeasibleIffMatching(p: Problem, s: set<Edge>)
    requires WellFormed(p)
    ensures IsFeasible(p, s) <==> s <= p.vars && IsMatching(s)
  {
    forall k | 0 <= k < p.orders {
      AtMostOneElement(s * p.orderRows[k]);
    }
    forall k | 0 <= k < p.vehicles {
      AtMostOneElement(s * p.vehicleCols[k]);
    }
    if IsFeasible(p, s) {
      forall a, b | a in s && b in s && (a.0 == b.0 || a.1 == b.1) ensures a == b {
        if a.0 == b.0 {
          assert a in s * p.orderRows[a.0] && b in s * p.orderRows[a.0];
        } else {
          assert a in s * p.vehicleCols[a.1] && b in s * p.vehicleCols[a.1];
        }
      }
    }
  }

  /** Choosing nothing always meets the constraints and costs nothing. */
  lemma EmptyChoice(p: Problem)
    ensures IsFeasible(p, {})
    ensures Objective(p, {}) == 0.0
  {
    forall k | 0 <= k < |p.orderRows| ensures |{} * p.orderRows[k]| <= 1 {
      assert {} * p.orderRows[k] == {};
    }
    forall k | 0 <= k < |p.vehicleCols| ensures |{} * p.vehicleCols[k]| <= 1 {
      assert {} * p.vehicleCols[k] == {};
    }
    PicksNothing({} * p.vars, p.orders, p.vehicles);
  }

  /** When every variable has a positive cost, any nonempty choice has a positive objective. */
  lemma ObjectivePositive(p: Problem, s: set<Edge>)
    requires WellFormed(p)
    requires forall e :: e in p.vars ==> p.cost[e] > 0.0
    requires s != {} && s <= p.vars
    ensures Objective(p, s) > 0.0
  {
    var e :| e in s;
    var chosen := Picks(s * p.vars, p.orders, p.vehicles);
    PicksSpec(s * p.vars, p.orders, p.vehicles);
    assert e in chosen;
    SumCostPositive(p.cost, chosen);
  }

  /** With only at-most-one constraints, minimising positive costs selects nothing. */
  lemma OptimalIsEmptyWhenCostsPositive(p: Problem, s: set<Edge>)
    requires WellFormed(p)
    requires forall e :: e in p.vars ==> p.cost[e] > 0.0
    requires IsOptimal(p, s)
    ensures s == {}
  {
    EmptyChoice(p);
    if s != {} {
      ObjectivePositive(p, s);
    }
  }

  /** No two edges of the list share an order or a vehicle. */
  predicate OneToOne(es: seq<Edge>) {
    forall a, b :: 0 <= a < b < |es| ==> es[a].0 != es[b].0 && es[a].1 != es[b].1
  }

  /** Listing a matching in loop order gives each order and each vehicle at most once. */
  lemma SelectedMatchingOneToOne(s: set<Edge>, n: nat, m: nat)
    requires IsMatching(s)
    ensures OneToOne(Picks(s, n, m))
  {
    var r := Picks(s, n, m);
    PicksSpec(s, n, m);
    forall a, b | 0 <= a < b < |r| ensures r[a].0 != r[b].0 && r[a].1 != r[b].1 {
      assert Before(r[a], r[b]);
      assert r[a] in r && r[b] in r;
    }
  }
}
