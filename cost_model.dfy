/** `compute_cost`: transit time and fuel cost of serving one order with one vehicle. */
module CostModel {
  import opened Results
  import opened Strings
  import opened Fleet

  /** Assumed average speed, km/h. */
  const AVG_SPEED_KMH: real := 50.0
  /** Assumed fuel price, rupees per litre. */
  const FUEL_PRICE_PER_L: real := 100.0

  /** One row of the traffic frame: the congestion factor recorded for an order. */
  datatype TrafficSample = TrafficSample(orderId: string, congestion: real)

  /** What `compute_cost` returns: (cost, time_min). */
  datatype Estimate = Estimate(cost: real, timeMin: real)

  /** `.values[0]` on an empty selection raises; the model names the order instead. */
  datatype CostError = MissingTraffic(orderId: string)

  /** The congestion of the first traffic row whose order id matches, if any. */
  function Congestion(traffic: seq<TrafficSample>, orderId: string): Option<real> {
    if traffic == [] then None
    else if traffic[0].orderId == orderId then Some(traffic[0].congestion)
    else Congestion(traffic[1..], orderId)
  }

  /** `.values[0]` of the selection: there is no value exactly when no row has the
      order's id, and otherwise it is the congestion of the first such row. */
  lemma {:induction false} CongestionSpec(traffic: seq<TrafficSample>, orderId: string)
    ensures Congestion(traffic, orderId).None? <==> forall k :: 0 <= k < |traffic| ==> traffic[k].orderId != orderId
    ensures Congestion(traffic, orderId).Some? ==>
              exists k :: 0 <= k < |traffic| && traffic[k].orderId == orderId
                          && traffic[k].congestion == Congestion(traffic, orderId).value
                          && forall k' :: 0 <= k' < k ==> traffic[k'].orderId != orderId
  {
    if traffic != [] && traffic[0].orderId != orderId {
      CongestionSpec(traffic[1..], orderId);
      assert forall k :: 1 <= k < |traffic| ==> traffic[k] == traffic[1..][k - 1];
      if Congestion(traffic, orderId).Some? {
        var k :| 0 <= k < |traffic[1..]| && traffic[1..][k].orderId == orderId
                 && traffic[1..][k].congestion == Congestion(traffic, orderId).value
                 && forall k' :: 0 <= k' < k ==> traffic[1..][k'].orderId != orderId;
        assert traffic[k + 1] == traffic[1..][k];
        assert forall k' :: 0 <= k' < k + 1 ==> traffic[k'].orderId != orderId by {
          forall k' | 0 <= k' < k + 1 ensures traffic[k'].orderId != orderId {
            if k' > 0 { assert traffic[k'] == traffic[1..][k' - 1]; }
          }
        }
      }
    }
  }

  /** The if/elif chain on substrings of the vehicle type; the first test that
      succeeds decides, and a type matching none of them is not scaled. */
  function TypeMultiplier(vehicleType: string): (m: real)
    ensures 0.8 <= m <= 1.5
  {
    if Contains(vehicleType, "Truck") then 1.2
    else if Contains(vehicleType, "Van") then 1.0
    else if Contains(vehicleType, "Bike") then 0.8
    else if Contains(vehicleType, REFRIGERATED) then 1.5
    else 1.0
  }

  /** The same rule as an ordered table of (substring, multiplier). */
  const TYPE_RULES: seq<(string, real)> :=
    [("Truck", 1.2), ("Van", 1.0), ("Bike", 0.8), (REFRIGERATED, 1.5)]

  /** The multiplier of the first rule whose substring occurs, else `default`. */
  function FirstMatch(rules: seq<(string, real)>, s: string, default: real): (m: real)
    ensures (forall k :: 0 <= k < |rules| ==> !Contains(s, rules[k].0)) ==> m == default
    ensures forall k ::
              (0 <= k < |rules| && Contains(s, rules[k].0) && forall k' :: 0 <= k' < k ==> !Contains(s, rules[k'].0))
              ==> m == rules[k].1
  {
    if rules == [] then default
    else if Contains(s, rules[0].0) then rules[0].1
    else
      var m := FirstMatch(rules[1..], s, default);
      assert forall k :: 1 <= k < |rules| ==> rules[k] == rules[1..][k - 1];
      m
  }

  /** The if/elif chain is the first-match rule over the table, with default 1. */
  lemma TypeMultiplierIsFirstMatch(vehicleType: string)
    ensures TypeMultiplier(vehicleType) == FirstMatch(TYPE_RULES, vehicleType, 1.0)
  {
    var s := vehicleType;
    if Contains(s, "Truck") {
      assert Contains(s, TYPE_RULES[0].0);
    } else if Contains(s, "Van") {
      assert Contains(s, TYPE_RULES[1].0) && !Contains(s, TYPE_RULES[0].0);
    } else if Contains(s, "Bike") {
      assert Contains(s, TYPE_RULES[2].0);
      assert !Contains(s, TYPE_RULES[0].0) && !Contains(s, TYPE_RULES[1].0);
    } else if Contains(s, REFRIGERATED) {
      assert Contains(s, TYPE_RULES[3].0);
      assert !Contains(s, TYPE_RULES[0].0) && !Contains(s, TYPE_RULES[1].0) && !Contains(s, TYPE_RULES[2].0);
    } else {
      assert forall k :: 0 <= k < |TYPE_RULES| ==> !Contains(s, TYPE_RULES[k].0);
    }
  }

  /** A refrigerated truck is priced as a truck: the "Truck" branch comes first. */
  lemma RefrigeratedTruckPricedAsTruck()
    ensures TypeMultiplier("Refrigerated Truck") == 1.2
  {
    var s := "Refrigerated Truck";
    assert OccursAt(s, "Truck", 13);
    ContainsIffOccurs(s, "Truck");
  }

  /** The priority dictionary; `.get(priority, 1)` gives 1 for any other tier. */
  const PRIORITY_MULTIPLIER: map<string, real> := map["Express" := 1.5, "Standard" := 1.2, "Economy" := 1.0]

  function PriorityMultiplier(priority: string): (m: real)
    ensures 1.0 <= m <= 1.5
  {
    if priority in PRIORITY_MULTIPLIER then PRIORITY_MULTIPLIER[priority] else 1.0
  }

  /** Multipliers follow the tier order Express > Standard > Economy, and an
      unknown tier costs as much as Economy. */
  lemma PriorityTierOrder(unknown: string)
    requires unknown !in PRIORITY_MULTIPLIER
    ensures PriorityMultiplier("Express") > PriorityMultiplier("Standard") > PriorityMultiplier("Economy")
    ensures PriorityMultiplier(unknown) == PriorityMultiplier("Economy")
  {
  }

  /** `compute_cost(order, vehicle)`; the traffic frame is `self.traffic`. A
      missing traffic row is an error, never a default congestion. */
  function ComputeCost(traffic: seq<TrafficSample>, o: Order, v: Vehicle): (r: Result<Estimate, CostError>)
    requires v.fuelEfficiency != 0.0
    ensures r.Err? <==> Congestion(traffic, o.id).None?
    ensures r.Err? ==> r.error == MissingTraffic(o.id)
    ensures r.Ok? ==> r.value.timeMin
                      == (o.distanceKm / AVG_SPEED_KMH * 60.0 + o.trafficDelayMin) * (1.0 + Congestion(traffic, o.id).value)
    ensures r.Ok? ==> r.value.cost
                      == o.distanceKm * (FUEL_PRICE_PER_L / v.fuelEfficiency)
                         * TypeMultiplier(v.vehicleType) * PriorityMultiplier(o.priority)
  {
    var dist := o.distanceKm;
    var baseTime := (dist / AVG_SPEED_KMH) * 60.0 + o.trafficDelayMin;
    match Congestion(traffic, o.id)
    case None => Err(MissingTraffic(o.id))
    case Some(congestion) =>
      var timeMin := baseTime * (1.0 + congestion);
      var fuelCostPerKm := 1.0 / v.fuelEfficiency * FUEL_PRICE_PER_L;
      assert fuelCostPerKm == FUEL_PRICE_PER_L / v.fuelEfficiency;
      var cost := dist * fuelCostPerKm * TypeMultiplier(v.vehicleType) * PriorityMultiplier(o.priority);
      Ok(Estimate(cost, timeMin))
  }

  /** A positive distance on a vehicle with positive fuel efficiency always costs
      something, whatever the type and priority. */
  lemma CostPositive(traffic: seq<TrafficSample>, o: Order, v: Vehicle)
    requires o.distanceKm > 0.0 && v.fuelEfficiency > 0.0
    requires Congestion(traffic, o.id).Some?
    ensures ComputeCost(traffic, o, v).Ok? && ComputeCost(traffic, o, v).value.cost > 0.0
  {
    var perKm := FUEL_PRICE_PER_L / v.fuelEfficiency;
    assert perKm > 0.0;
    var base := o.distanceKm * perKm;
    assert base > 0.0;
    var typed := base * TypeMultiplier(v.vehicleType);
    assert typed > 0.0;
    assert typed * PriorityMultiplier(o.priority) > 0.0;
  }

  /** The cost does not depend on traffic: neither the delay nor the congestion
      enters it, only the time. */
  lemma CostIgnoresTraffic(traffic: seq<TrafficSample>, traffic': seq<TrafficSample>, o: Order, o': Order, v: Vehicle)
    requires v.fuelEfficiency != 0.0
    requires o' == o.(trafficDelayMin := o'.trafficDelayMin)
    requires Congestion(traffic, o.id).Some? && Congestion(traffic', o.id).Some?
    ensures ComputeCost(traffic', o', v).Ok?
    ensures ComputeCost(traffic', o', v).value.cost == ComputeCost(traffic, o, v).value.cost
  {
  }

  /** A Standard, 100 km, 5 kg order on a Van doing 10 km/L with 10% congestion
      takes 132 minutes and costs 1200. */
  lemma StandardVanScenario()
    ensures var o := Order("O1", "Mumbai", "Pune", 100.0, 0.0, 5.0, "Standard", "None");
            var v := Vehicle("V1", "Van", 50.0, 10.0, 0.25, AVAILABLE);
            IsCompatible(o, v) && ComputeCost([TrafficSample("O1", 0.1)], o, v) == Ok(Estimate(1200.0, 132.0))
  {
    LongerNotContained("Van", "Truck");
    ContainsSelf("Van");
  }
}
