/** How `optimize()` addresses its variables as written. The first loop keys each
    variable by the index LABELS that `iterrows()` yields; the objective, the
    constraints and the extraction look keys up by POSITION (`range(len(...))`,
    `iloc`). The model assumes that the orders frame carries its default index, so
    that its labels are its positions, and that the unfiltered vehicles frame does
    too, so that the filtered frame's labels are positions in the unfiltered one. */
module LabelIndexing {
  import opened Fleet
  import opened Matching
  import opened Optimizer

  /** Row `k` of the filtered vehicles frame, under its index label, pairs with
      order `i` into a variable key. */
  ghost predicate KeyedAt(orders: seq<Order>, vehicles: seq<Vehicle>, e: Edge, i: nat, k: nat) {
    i < |orders| && k < |Available(vehicles)| && IsCompatible(orders[i], Available(vehicles)[k])
    && e == (i, AvailableLabels(vehicles)[k])
  }

  /** The keys of `x` as the first loop builds them: (order label, vehicle label)
      for every compatible pair, and nothing else. */
  function VariableKeysAsWritten(orders: seq<Order>, vehicles: seq<Vehicle>): (keys: set<Edge>)
    ensures forall i: nat, k: nat :: i < |orders| && k < |Available(vehicles)| && IsCompatible(orders[i], Available(vehicles)[k])
              ==> (i, AvailableLabels(vehicles)[k]) in keys
    ensures forall e :: e in keys ==> exists i: nat, k: nat :: KeyedAt(orders, vehicles, e, i, k)
  {
    var avail, labels := Available(vehicles), AvailableLabels(vehicles);
    var keys := set i: nat, k: nat | i < |orders| && k < |avail| && IsCompatible(orders[i], avail[k]) :: (i, labels[k]);
    assert forall e :: e in keys ==> exists i: nat, k: nat :: KeyedAt(orders, vehicles, e, i, k) by {
      forall e | e in keys ensures exists i: nat, k: nat :: KeyedAt(orders, vehicles, e, i, k) {
        var i: nat, k: nat :| i < |orders| && k < |avail| && IsCompatible(orders[i], avail[k]) && e == (i, labels[k]);
        assert KeyedAt(orders, vehicles, e, i, k);
      }
    }
    keys
  }

  /** The keys the later loops find: positions (i, j) inside the filtered frames
      for which `(i, j) in x` holds. The objective prices each with
      `self.vehicles.iloc[j]`, the vehicle at POSITION j. */
  function LookedUpPairsAsWritten(orders: seq<Order>, vehicles: seq<Vehicle>): (pairs: set<Edge>)
    ensures forall e: Edge :: e in pairs <==>
              e.0 < |orders| && e.1 < |Available(vehicles)| && e in VariableKeysAsWritten(orders, vehicles)
  {
    var keys := VariableKeysAsWritten(orders, vehicles);
    set i: nat, j: nat | i < |orders| && j < |Available(vehicles)| && (i, j) in keys :: (i, j)
  }

  const HEAVY_ORDER := Order("O1", "Mumbai", "Pune", 100.0, 0.0, 10.0, "Standard", "None")
  const BUSY_TRUCK := Vehicle("V0", "Truck", 100.0, 8.0, 0.5, "In_Transit")
  const BIG_VAN := Vehicle("V1", "Van", 20.0, 10.0, 0.25, AVAILABLE)
  const SMALL_BIKE := Vehicle("V2", "Bike", 5.0, 40.0, 0.05, AVAILABLE)

  /** With one 10 kg order and vehicles [busy truck, 20 kg van, 5 kg bike], the
      filtered frame is [van, bike] with labels [1, 2]. The only key is (0, 1), for
      the van; looked up by position it names the bike, which cannot carry the
      order, while the compatible van at position 0 gets no variable at all. */
  lemma LabelMismatchExample()
    ensures
      var orders, vehicles := [HEAVY_ORDER], [BUSY_TRUCK, BIG_VAN, SMALL_BIKE];
      var opt := Init(orders, vehicles, []);
      && (0, 1) in LookedUpPairsAsWritten(orders, vehicles) && !IsCandidate(opt, (0, 1))
      && IsCandidate(opt, (0, 0)) && (0, 0) !in LookedUpPairsAsWritten(orders, vehicles)
  {
    var orders, vehicles := [HEAVY_ORDER], [BUSY_TRUCK, BIG_VAN, SMALL_BIKE];
    AvailableLabelsStep(vehicles);
    AvailableLabelsStep(vehicles[1..]);
    AvailableLabelsStep(vehicles[2..]);
    assert vehicles[3..] == [];
    assert Available(vehicles) == [BIG_VAN, SMALL_BIKE];
    assert AvailableLabels(vehicles) == [1, 2];
    assert HEAVY_ORDER.specialHandling != TEMPERATURE_CONTROLLED;
    assert IsCompatible(HEAVY_ORDER, Available(vehicles)[0]);
    assert !IsCompatible(HEAVY_ORDER, Available(vehicles)[1]);
    assert IsCompatible(orders[0], Available(vehicles)[0]);
    assert (0, AvailableLabels(vehicles)[0]) in VariableKeysAsWritten(orders, vehicles);
  }

  /** When every vehicle is available, labels are positions and the pairs looked up
      are exactly the candidate edges that `BuildVariables` produces. */
  lemma LookedUpPairsAgreeWhenAllAvailable(orders: seq<Order>, vehicles: seq<Vehicle>, traffic: seq<CostModel.TrafficSample>)
    requires forall k :: 0 <= k < |vehicles| ==> vehicles[k].status == AVAILABLE
    ensures LookedUpPairsAsWritten(orders, vehicles) == CandidateEdges(Init(orders, vehicles, traffic))
  {
    AllAvailable(vehicles);
    var opt := Init(orders, vehicles, traffic);
    var labels := AvailableLabels(vehicles);
    var keys, pairs := VariableKeysAsWritten(orders, vehicles), LookedUpPairsAsWritten(orders, vehicles);
    forall e: Edge | e in pairs ensures e in CandidateEdges(opt) {
      var i: nat, k: nat :| i < |orders| && k < |vehicles| && IsCompatible(orders[i], vehicles[k]) && e == (i, labels[k]);
      assert labels[k] == k;
    }
    forall e: Edge | e in CandidateEdges(opt) ensures e in pairs {
      assert labels[e.1] == e.1;
      assert (e.0, labels[e.1]) in keys;
    }
  }
}
