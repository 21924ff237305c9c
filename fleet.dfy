/** Input records of one optimization run, the availability filter of the
    optimizer's constructor, and the compatibility rule for an (order, vehicle) pair. */
module Fleet {
  import opened Strings

  const AVAILABLE: string := "Available"
  const TEMPERATURE_CONTROLLED: string := "Temperature_Controlled"
  const REFRIGERATED: string := "Refrigerated"

  /** One row of the orders frame (the columns the optimizer reads). */
  datatype Order = Order(
    id: string,
    origin: string,
    destination: string,
    distanceKm: real,
    trafficDelayMin: real,
    weightKg: real,
    priority: string,
    specialHandling: string)

  /** One row of the vehicles frame. */
  datatype Vehicle = Vehicle(
    id: string,
    vehicleType: string,
    capacityKg: real,
    fuelEfficiency: real,   // km per litre
    co2PerKm: real,         // kg per km
    status: string)

  /** The boolean-mask filter `vehicles[vehicles['Status'] == 'Available']`. */
  function Available(vs: seq<Vehicle>): (r: seq<Vehicle>)
    ensures |r| <= |vs|
    ensures forall k :: 0 <= k < |r| ==> r[k].status == AVAILABLE
  {
    if vs == [] then []
    else
      assert vs == [vs[0]] + vs[1..];
      (if vs[0].status == AVAILABLE then [vs[0]] else []) + Available(vs[1..])
  }

  /** The filter drops no available vehicle and keeps nothing else. */
  lemma {:induction false} AvailableMembers(vs: seq<Vehicle>, v: Vehicle)
    ensures v in Available(vs) <==> v in vs && v.status == AVAILABLE
  {
    if vs != [] {
      AvailableMembers(vs[1..], v);
      assert vs == [vs[0]] + vs[1..];
    }
  }

  /** Adds one to every label. */
  function Shift(labels: seq<nat>): (r: seq<nat>)
    ensures |r| == |labels|
    ensures forall k :: 0 <= k < |r| ==> r[k] == labels[k] + 1
  {
    seq(|labels|, k requires 0 <= k < |labels| => labels[k] + 1)
  }

  /** The index labels that survive the filter: the position, in the unfiltered
      frame, of each row of `Available(vs)`. This assumes the unfiltered vehicles
      frame carries the default index 0, 1, 2, ..., so that its labels are its
      positions. */
  function AvailableLabels(vs: seq<Vehicle>): (labels: seq<nat>)
    ensures |labels| == |Available(vs)|
  {
    if vs == [] then []
    else
      assert vs == [vs[0]] + vs[1..];
      (if vs[0].status == AVAILABLE then [0] else []) + Shift(AvailableLabels(vs[1..]))
  }

  /** Removing the first row drops its label, if it was kept, and shifts the others. */
  lemma AvailableLabelsStep(vs: seq<Vehicle>)
    requires vs != []
    ensures vs[0].status == AVAILABLE ==>
              AvailableLabels(vs) == [0] + Shift(AvailableLabels(vs[1..]))
              && Available(vs) == [vs[0]] + Available(vs[1..])
    ensures vs[0].status != AVAILABLE ==>
              AvailableLabels(vs) == Shift(AvailableLabels(vs[1..])) && Available(vs) == Available(vs[1..])
  {
    assert vs == [vs[0]] + vs[1..];
  }

  /** Row k of the filtered frame is the row at label k of the unfiltered one. */
  lemma {:induction false} AvailableLabelsAt(vs: seq<Vehicle>)
    ensures forall k :: 0 <= k < |AvailableLabels(vs)| ==>
              AvailableLabels(vs)[k] < |vs| && vs[AvailableLabels(vs)[k]] == Available(vs)[k]
  {
    if vs != [] {
      AvailableLabelsAt(vs[1..]);
      AvailableLabelsStep(vs);
      var labels, tail := AvailableLabels(vs), AvailableLabels(vs[1..]);
      var d := if vs[0].status == AVAILABLE then 1 else 0;
      forall k | 0 <= k < |labels| ensures labels[k] < |vs| && vs[labels[k]] == Available(vs)[k] {
        if k >= d {
          assert labels[k] == tail[k - d] + 1;
          assert vs[tail[k - d] + 1] == vs[1..][tail[k - d]];
        }
      }
    }
  }

  /** A label is in a shifted list exactly when the label below it is in the list. */
  lemma ShiftMembers(labels: seq<nat>, k: nat)
    ensures k in Shift(labels) <==> k > 0 && k - 1 in labels
  {
    if k in Shift(labels) {
      var a :| 0 <= a < |labels| && Shift(labels)[a] == k;
    }
    if k > 0 && k - 1 in labels {
      var a :| 0 <= a < |labels| && labels[a] == k - 1;
      assert Shift(labels)[a] == k;
    }
  }

  /** A label survives the filter exactly when the vehicle at that position is
      available: the filter drops no available row, duplicates included. */
  lemma {:induction false} AvailableLabelsComplete(vs: seq<Vehicle>)
    ensures forall k :: 0 <= k < |vs| ==> (vs[k].status == AVAILABLE <==> k in AvailableLabels(vs))
  {
    if vs != [] {
      AvailableLabelsComplete(vs[1..]);
      AvailableLabelsStep(vs);
      var tail := AvailableLabels(vs[1..]);
      forall k | 0 <= k < |vs| ensures vs[k].status == AVAILABLE <==> k in AvailableLabels(vs) {
        ShiftMembers(tail, k);
        if vs[0].status == AVAILABLE {
          assert k in AvailableLabels(vs) <==> k == 0 || k in Shift(tail);
        } else {
          assert k in AvailableLabels(vs) <==> k in Shift(tail);
        }
        if k > 0 {
          assert vs[k] == vs[1..][k - 1];
        }
      }
    }
  }

  /** Strictly increasing. */
  predicate Increasing(labels: seq<nat>) {
    forall a, b :: 0 <= a < b < |labels| ==> labels[a] < labels[b]
  }

  /** Shifting keeps the order and puts every label above 0. */
  lemma ShiftIncreasing(labels: seq<nat>)
    requires Increasing(labels)
    ensures Increasing(Shift(labels)) && Increasing([0] + Shift(labels))
  {
    var r := Shift(labels);
    forall a, b | 0 <= a < b < |[0] + r| ensures ([0] + r)[a] < ([0] + r)[b] {
      assert ([0] + r)[b] == r[b - 1];
    }
  }

  /** Labels increase with the row. */
  lemma {:induction false} AvailableLabelsIncreasing(vs: seq<Vehicle>)
    ensures Increasing(AvailableLabels(vs))
  {
    if vs != [] {
      AvailableLabelsIncreasing(vs[1..]);
      AvailableLabelsStep(vs);
      ShiftIncreasing(AvailableLabels(vs[1..]));
    }
  }

  /** When every vehicle is available the filter keeps the frame as it is and
      every label equals its position. */
  lemma {:induction false} AllAvailable(vs: seq<Vehicle>)
    requires forall k :: 0 <= k < |vs| ==> vs[k].status == AVAILABLE
    ensures Available(vs) == vs
    ensures forall k :: 0 <= k < |vs| ==> AvailableLabels(vs)[k] == k
  {
    if vs != [] {
      AllAvailable(vs[1..]);
      assert vs == [vs[0]] + vs[1..];
    }
  }

  /** `is_compatible`: the weight rule, then the handling rule. */
  function IsCompatible(o: Order, v: Vehicle): (ok: bool)
    ensures ok <==> o.weightKg <= v.capacityKg
                    && (o.specialHandling == TEMPERATURE_CONTROLLED ==> Contains(v.vehicleType, REFRIGERATED))
  {
    if o.weightKg > v.capacityKg then false
    else if o.specialHandling == TEMPERATURE_CONTROLLED && !Contains(v.vehicleType, REFRIGERATED) then false
    else true
  }

  /** A temperature-controlled order is compatible only with a vehicle whose
      type string mentions "Refrigerated"; that vehicle may be of any other kind too. */
  lemma ColdChainNeedsRefrigeration(o: Order, v: Vehicle)
    requires o.specialHandling == TEMPERATURE_CONTROLLED
    ensures IsCompatible(o, v) ==> exists k :: OccursAt(v.vehicleType, REFRIGERATED, k)
    ensures o.weightKg <= v.capacityKg && (exists k :: OccursAt(v.vehicleType, REFRIGERATED, k)) ==> IsCompatible(o, v)
  {
    ContainsIffOccurs(v.vehicleType, REFRIGERATED);
  }
}
