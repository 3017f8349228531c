/** The synthetic data generator (generate_data.py:5-95): a fleet of ten
    vehicles, five routes, a year of daily fuel prices and `numRecords` trips.
    Every random draw of the source is a parameter here (a `VehicleDraw`,
    `RouteDraw`, a price per day, a `TripDraw`), constrained to the range the
    source draws it from; dates are day numbers counted from an arbitrary
    origin, and `today` is the day the generator runs. */
module Generator {
  import opened Tables
  import opened Ids
  import Dashboard

  const VehicleTypes: seq<string> := ["Truck A", "Truck B", "Truck C"]
  const Terrains: seq<string> := ["Flat", "Hilly", "Mountainous"]
  const FleetSize: nat := 10
  const RouteCount: nat := 5
  const PriceDays: nat := 365

  datatype Vehicle = Vehicle(id: string, vehicleType: string, ageYears: int, lastMaintenance: int)
  datatype Route = Route(id: string, distanceKm: int, terrain: string)
  datatype FuelPrice = FuelPrice(day: int, pricePerLiter: real)
  datatype Trip = Trip(
    tripId: nat, day: int,
    vehicleId: string, vehicleType: string, vehicleAgeYears: int, lastMaintenance: int,
    routeId: string, routeDistanceKm: int, terrain: string,
    actualDistanceKm: real, fuelConsumedLiters: real, fuelCostMxn: real, kpl: real, loadFactor: real)

  // ---------------------------------------------------------------------
  // The random draws
  // ---------------------------------------------------------------------

  /** A vehicle's type (an index into VehicleTypes), its age and how many days
      before `today` it was last serviced. */
  datatype VehicleDraw = VehicleDraw(typeIndex: nat, ageYears: int, maintenanceDaysAgo: int)

  predicate ValidVehicleDraw(d: VehicleDraw) {
    d.typeIndex < |VehicleTypes| && 1 <= d.ageYears < 10 && 30 <= d.maintenanceDaysAgo < 365
  }

  datatype RouteDraw = RouteDraw(distanceKm: int, terrainIndex: nat)

  predicate ValidRouteDraw(d: RouteDraw) {
    100 <= d.distanceKm < 1000 && d.terrainIndex < |Terrains|
  }

  /** A price drawn uniformly from [20, 25) plus a seasonal swing of at most 2
      either way. */
  predicate ValidPrice(p: real) {
    18.0 <= p <= 27.0
  }

  /** The draws of one trip: the day after the start of the year, the vehicle
      and route picked, the base efficiency, the load factor, the anomaly
      factor when the 2% anomaly occurs, and the factor on the route distance. */
  datatype TripDraw = TripDraw(
    dayOffset: int, vehicle: nat, route: nat, baseKpl: real, loadFactor: real,
    anomaly: Option<real>, distanceFactor: real)

  predicate ValidTripDraw(d: TripDraw) {
    && 0 <= d.dayOffset < 365
    && d.vehicle < FleetSize && d.route < RouteCount
    && 2.5 <= d.baseKpl < 4.5
    && 0.8 <= d.loadFactor < 1.2
    && (d.anomaly.Some? ==> 0.5 <= d.anomaly.value < 0.7)
    && 0.8 <= d.distanceFactor < 1.2
  }

  // ---------------------------------------------------------------------
  // Vehicles, routes and prices
  // ---------------------------------------------------------------------

  predicate ValidVehicle(v: Vehicle) {
    v.vehicleType in VehicleTypes && 1 <= v.ageYears < 10
  }

  /** Vehicle number `i` of the fleet. */
  function MakeVehicle(i: nat, d: VehicleDraw, today: int): (v: Vehicle)
    requires ValidVehicleDraw(d)
    ensures ValidVehicle(v) && v.id == FormatId('V', i)
    ensures today - 365 < v.lastMaintenance <= today - 30
  {
    Vehicle(FormatId('V', i), VehicleTypes[d.typeIndex], d.ageYears, today - d.maintenanceDaysAgo)
  }

  /** The vehicles table: ids V000..V009. */
  function Fleet(draws: seq<VehicleDraw>, today: int): (vs: seq<Vehicle>)
    requires |draws| == FleetSize && forall i | 0 <= i < |draws| :: ValidVehicleDraw(draws[i])
    ensures |vs| == FleetSize
    ensures forall i | 0 <= i < |vs| :: ValidVehicle(vs[i]) && vs[i].id == FormatId('V', i)
    ensures forall i | 0 <= i < |vs| :: today - 365 < vs[i].lastMaintenance <= today - 30
  {
    seq(FleetSize, i requires 0 <= i < FleetSize => MakeVehicle(i, draws[i], today))
  }

  /** Route number `i`. */
  function MakeRoute(i: nat, d: RouteDraw): (r: Route)
    requires ValidRouteDraw(d)
    ensures r.terrain in Terrains && 100 <= r.distanceKm < 1000 && r.id == FormatId('R', i)
  {
    Route(FormatId('R', i), d.distanceKm, Terrains[d.terrainIndex])
  }

  /** The routes table: ids R000..R004. */
  function RouteTable(draws: seq<RouteDraw>): (rs: seq<Route>)
    requires |draws| == RouteCount && forall i | 0 <= i < |draws| :: ValidRouteDraw(draws[i])
    ensures |rs| == RouteCount
    ensures forall i | 0 <= i < |rs| :: rs[i].terrain in Terrains && 100 <= rs[i].distanceKm < 1000
    ensures forall i | 0 <= i < |rs| :: rs[i].id == FormatId('R', i)
  {
    seq(RouteCount, i requires 0 <= i < RouteCount => MakeRoute(i, draws[i]))
  }

  /** The prices table: row i is the day i days before today. */
  function PriceTable(prices: seq<real>, today: int): (ps: seq<FuelPrice>)
    requires |prices| == PriceDays
    ensures |ps| == PriceDays
    ensures forall i | 0 <= i < |ps| :: ps[i].day == today - i && ps[i].pricePerLiter == prices[i]
  {
    seq(PriceDays, i requires 0 <= i < PriceDays => FuelPrice(today - i, prices[i]))
  }

  /** Vehicle and route ids are unique, so each is a key the loader can join on. */
  lemma IdsUnique(vdraws: seq<VehicleDraw>, rdraws: seq<RouteDraw>, today: int)
    requires |vdraws| == FleetSize && forall i | 0 <= i < |vdraws| :: ValidVehicleDraw(vdraws[i])
    requires |rdraws| == RouteCount && forall i | 0 <= i < |rdraws| :: ValidRouteDraw(rdraws[i])
    ensures var vs := Fleet(vdraws, today);
      forall i, j | 0 <= i < j < |vs| :: vs[i].id != vs[j].id
    ensures var rs := RouteTable(rdraws);
      forall i, j | 0 <= i < j < |rs| :: rs[i].id != rs[j].id
  {
    forall i: nat, j: nat | i < j < FleetSize ensures FormatId('V', i) != FormatId('V', j) {
      if FormatId('V', i) == FormatId('V', j) {
        FormatIdInjective('V', i, j);
      }
    }
    forall i: nat, j: nat | i < j < RouteCount ensures FormatId('R', i) != FormatId('R', j) {
      if FormatId('R', i) == FormatId('R', j) {
        FormatIdInjective('R', i, j);
      }
    }
  }

  /** The price table holds exactly one row per day of the year ending today. */
  lemma PriceDaysCovered(prices: seq<real>, today: int, day: int)
    requires |prices| == PriceDays
    ensures var ps := PriceTable(prices, today);
      (exists i | 0 <= i < |ps| :: ps[i].day == day) <==> today - 365 < day <= today
    ensures var ps := PriceTable(prices, today);
      forall i, j | 0 <= i < j < |ps| :: ps[i].day != ps[j].day
  {
    var ps := PriceTable(prices, today);
    if today - 365 < day <= today {
      assert ps[today - day].day == day;
    }
  }

  // ---------------------------------------------------------------------
  // Fuel efficiency
  // ---------------------------------------------------------------------

  function TypeFactor(vehicleType: string): real {
    if vehicleType == "Truck B" then 0.95
    else if vehicleType == "Truck C" then 0.85
    else 1.0
  }

  function AgeFactor(ageYears: int): real {
    1.0 - (ageYears as real) * 0.02
  }

  function TerrainFactor(terrain: string): real {
    if terrain == "Hilly" then 0.9
    else if terrain == "Mountainous" then 0.8
    else 1.0
  }

  function AnomalyFactor(anomaly: Option<real>): real {
    if anomaly.Some? then anomaly.value else 1.0
  }

  /** The efficiency (km per liter) a trip reports: the base efficiency scaled
      by the vehicle type, the vehicle age, the terrain, the load and, when it
      occurs, the anomaly. */
  function Kpl(vehicleType: string, ageYears: int, terrain: string, base: real, load: real, anomaly: Option<real>): real {
    var typed := Scaled(base, TypeFactor(vehicleType));
    var aged := Scaled(typed, AgeFactor(ageYears));
    var routed := Scaled(aged, TerrainFactor(terrain));
    Scaled(Scaled(routed, load), AnomalyFactor(anomaly))
  }

  /** One `*=` adjustment. */
  function Scaled(x: real, factor: real): real {
    x * factor
  }

  /** The efficiency of one trip, adjusted one factor at a time. */
  method Efficiency(v: Vehicle, r: Route, d: TripDraw) returns (consumptionKpl: real)
    ensures consumptionKpl == Kpl(v.vehicleType, v.ageYears, r.terrain, d.baseKpl, d.loadFactor, d.anomaly)
  {
    var baseKpl := d.baseKpl;
    if v.vehicleType == "Truck B" {
      baseKpl := baseKpl * 0.95;
    } else if v.vehicleType == "Truck C" {
      baseKpl := baseKpl * 0.85;
    }
    baseKpl := baseKpl * (1.0 - (v.ageYears as real) * 0.02);
    if r.terrain == "Hilly" {
      baseKpl := baseKpl * 0.9;
    } else if r.terrain == "Mountainous" {
      baseKpl := baseKpl * 0.8;
    }
    consumptionKpl := baseKpl * d.loadFactor;
    if d.anomaly.Some? {
      consumptionKpl := consumptionKpl * d.anomaly.value;
    }
  }

  lemma MulLe(a: real, b: real, c: real, d: real)
    requires 0.0 <= a <= b && 0.0 <= c <= d
    ensures a * c <= b * d
  {
    assert a * c <= b * c;
  }

  lemma MulPos(a: real, b: real)
    requires a > 0.0 && b > 0.0
    ensures a * b > 0.0
  {
  }

  lemma MulLt(a: real, b: real, c: real, d: real)
    requires 0.0 < a <= b && 0.0 < c < d
    ensures a * c < b * d
  {
    assert a * c < a * d;
  }

  /** Every efficiency the generator can produce lies in [0.5576, 5.292): the
      least is a Truck C aged 9 on a mountain route, lightly loaded, with the
      worst anomaly; the greatest a new Truck A on flat ground, fully loaded. */
  lemma KplBounds(vehicleType: string, ageYears: int, terrain: string, base: real, load: real, anomaly: Option<real>)
    requires 1 <= ageYears < 10 && 2.5 <= base < 4.5 && 0.8 <= load < 1.2
    requires anomaly.Some? ==> 0.5 <= anomaly.value < 0.7
    ensures 0.5576 <= Kpl(vehicleType, ageYears, terrain, base, load, anomaly) < 5.292
  {
    var t := TypeFactor(vehicleType);
    var a := AgeFactor(ageYears);
    var g := TerrainFactor(terrain);
    var n := AnomalyFactor(anomaly);
    assert 0.85 <= t <= 1.0 && 0.82 <= a <= 0.98 && 0.8 <= g <= 1.0 && 0.5 <= n <= 1.0;
    var p1 := Scaled(base, t);
    var p2 := Scaled(p1, a);
    var p3 := Scaled(p2, g);
    var p4 := Scaled(p3, load);
    MulLe(2.5, base, 0.85, t);
    MulLe(2.125, p1, 0.82, a);
    MulLe(1.7425, p2, 0.8, g);
    MulLe(1.394, p3, 0.8, load);
    MulLe(1.1152, p4, 0.5, n);
    assert 0.5576 <= Scaled(p4, n);
    MulLe(base, 4.5, t, 1.0);
    MulLe(p1, 4.5, a, 0.98);
    MulLe(p2, 4.41, g, 1.0);
    MulLt(p3, 4.41, load, 1.2);
    assert p4 < 5.292;
    MulLe(p4, p4, n, 1.0);
    assert Scaled(p4, n) < 5.292;
  }

  /** All other draws equal, Truck A is more efficient than Truck B, and Truck B
      than Truck C. */
  lemma KplByVehicleType(ageYears: int, terrain: string, base: real, load: real, anomaly: Option<real>)
    requires ageYears < 50 && base > 0.0 && load > 0.0 && (anomaly.Some? ==> anomaly.value > 0.0)
    ensures Kpl("Truck C", ageYears, terrain, base, load, anomaly) < Kpl("Truck B", ageYears, terrain, base, load, anomaly)
    ensures Kpl("Truck B", ageYears, terrain, base, load, anomaly) < Kpl("Truck A", ageYears, terrain, base, load, anomaly)
  {
    var rest := AgeFactor(ageYears) * TerrainFactor(terrain) * load * AnomalyFactor(anomaly);
    assert rest > 0.0 by {
      MulPos(AgeFactor(ageYears), TerrainFactor(terrain));
      MulPos(AgeFactor(ageYears) * TerrainFactor(terrain), load);
      MulPos(AgeFactor(ageYears) * TerrainFactor(terrain) * load, AnomalyFactor(anomaly));
    }
    forall vt ensures Kpl(vt, ageYears, terrain, base, load, anomaly) == base * TypeFactor(vt) * rest {
    }
    MulPos(base, rest);
  }

  /** All other draws equal, flat routes give better efficiency than hilly
      ones, and hilly ones than mountainous ones. */
  lemma KplByTerrain(vehicleType: string, ageYears: int, base: real, load: real, anomaly: Option<real>)
    requires ageYears < 50 && base > 0.0 && load > 0.0 && (anomaly.Some? ==> anomaly.value > 0.0)
    ensures Kpl(vehicleType, ageYears, "Mountainous", base, load, anomaly) < Kpl(vehicleType, ageYears, "Hilly", base, load, anomaly)
    ensures Kpl(vehicleType, ageYears, "Hilly", base, load, anomaly) < Kpl(vehicleType, ageYears, "Flat", base, load, anomaly)
  {
    var front := base * TypeFactor(vehicleType) * AgeFactor(ageYears);
    var back := load * AnomalyFactor(anomaly);
    assert front > 0.0 by {
      MulPos(base, TypeFactor(vehicleType));
      MulPos(base * TypeFactor(vehicleType), AgeFactor(ageYears));
    }
    MulPos(load, AnomalyFactor(anomaly));
    forall terrain ensures Kpl(vehicleType, ageYears, terrain, base, load, anomaly) == TerrainFactor(terrain) * (front * back) {
    }
    MulPos(front, back);
  }

  /** All other draws equal, an older vehicle is less efficient. */
  lemma KplByAge(vehicleType: string, terrain: string, base: real, load: real, anomaly: Option<real>, younger: int, older: int)
    requires younger < older < 50
    requires base > 0.0 && load > 0.0 && (anomaly.Some? ==> anomaly.value > 0.0)
    ensures Kpl(vehicleType, older, terrain, base, load, anomaly) < Kpl(vehicleType, younger, terrain, base, load, anomaly)
  {
    var rest := base * TypeFactor(vehicleType) * TerrainFactor(terrain) * load * AnomalyFactor(anomaly);
    assert rest > 0.0 by {
      MulPos(base, TypeFactor(vehicleType));
      MulPos(base * TypeFactor(vehicleType), TerrainFactor(terrain));
      MulPos(base * TypeFactor(vehicleType) * TerrainFactor(terrain), load);
      MulPos(base * TypeFactor(vehicleType) * TerrainFactor(terrain) * load, AnomalyFactor(anomaly));
    }
    forall age ensures Kpl(vehicleType, age, terrain, base, load, anomaly) == AgeFactor(age) * rest {
    }
    MulLt(rest, rest, AgeFactor(older), AgeFactor(younger));
  }

  /** An anomaly always lowers the efficiency the trip would otherwise report. */
  lemma KplAnomalyLowers(vehicleType: string, ageYears: int, terrain: string, base: real, load: real, factor: real)
    requires ageYears < 50 && base > 0.0 && load > 0.0 && 0.0 < factor < 1.0
    ensures Kpl(vehicleType, ageYears, terrain, base, load, Some(factor)) < Kpl(vehicleType, ageYears, terrain, base, load, None)
  {
    var rest := base * TypeFactor(vehicleType) * AgeFactor(ageYears) * TerrainFactor(terrain) * load;
    assert rest > 0.0 by {
      MulPos(base, TypeFactor(vehicleType));
      MulPos(base * TypeFactor(vehicleType), AgeFactor(ageYears));
      MulPos(base * TypeFactor(vehicleType) * AgeFactor(ageYears), TerrainFactor(terrain));
      MulPos(base * TypeFactor(vehicleType) * AgeFactor(ageYears) * TerrainFactor(terrain), load);
    }
    MulLt(rest, rest, factor, 1.0);
  }

  // ---------------------------------------------------------------------
  // The fuel price of a trip's day
  // ---------------------------------------------------------------------

  /** The price of the first row dated `day`, if any. */
  function FirstPrice(prices: seq<FuelPrice>, day: int): (r: Option<real>)
    ensures r.Some? ==> exists k | 0 <= k < |prices| :: prices[k].day == day && r.value == prices[k].pricePerLiter
    ensures r.None? <==> forall k | 0 <= k < |prices| :: prices[k].day != day
  {
    if prices == [] then None
    else if prices[0].day == day then Some(prices[0].pricePerLiter)
    else
      var r := FirstPrice(prices[1..], day);
      assert forall k | 1 <= k < |prices| :: prices[k] == prices[1..][k - 1];
      r
  }

  function PriceValues(prices: seq<FuelPrice>): (xs: seq<real>)
    ensures |xs| == |prices| && forall k | 0 <= k < |xs| :: xs[k] == prices[k].pricePerLiter
  {
    seq(|prices|, k requires 0 <= k < |prices| => prices[k].pricePerLiter)
  }

  /** The price a trip on `day` pays: the first price dated that day, else the
      mean of all prices (None, a NaN, only for an empty table). */
  function PriceFor(prices: seq<FuelPrice>, day: int): (p: Option<real>)
    ensures p.None? <==> prices == []
  {
    match FirstPrice(prices, day)
    case Some(x) => Some(x)
    case None => Dashboard.Mean(PriceValues(prices))
  }

  /** A dated row is found: the first one of that day gives the price. */
  lemma {:induction false} PriceForMatch(prices: seq<FuelPrice>, day: int, k: nat)
    requires k < |prices| && prices[k].day == day
    requires forall j | 0 <= j < k :: prices[j].day != day
    ensures PriceFor(prices, day) == Some(prices[k].pricePerLiter)
    ensures FirstPrice(prices, day) == Some(prices[k].pricePerLiter)
  {
    if k > 0 {
      PriceForMatch(prices[1..], day, k - 1);
    }
  }

  /** No row of that day: the mean of every price. */
  lemma PriceForFallback(prices: seq<FuelPrice>, day: int)
    requires forall j | 0 <= j < |prices| :: prices[j].day != day
    ensures PriceFor(prices, day) == Dashboard.Mean(PriceValues(prices))
  {
  }

  /** Either way the price lies within the range of the table's prices. */
  lemma PriceForBounds(prices: seq<FuelPrice>, day: int, lo: real, hi: real)
    requires prices != [] && forall j | 0 <= j < |prices| :: lo <= prices[j].pricePerLiter <= hi
    ensures lo <= PriceFor(prices, day).value <= hi
  {
    if FirstPrice(prices, day).None? {
      Dashboard.MeanBounds(PriceValues(prices), lo, hi);
    }
  }

  /** A trip drawn `offset` days after the start of the year pays the price of
      its day, which the table has for every offset but 0: a trip on the first
      day of the year pays the mean price. */
  lemma TripDayPrice(prices: seq<real>, today: int, offset: int)
    requires |prices| == PriceDays && 0 <= offset < 365
    ensures offset == 0 ==> PriceFor(PriceTable(prices, today), today - 365 + offset) == Dashboard.Mean(prices)
    ensures offset > 0 ==> PriceFor(PriceTable(prices, today), today - 365 + offset) == Some(prices[365 - offset])
  {
    var ps := PriceTable(prices, today);
    var day := today - 365 + offset;
    if offset == 0 {
      assert PriceValues(ps) == prices;
      PriceForFallback(ps, day);
    } else {
      PriceForMatch(ps, day, 365 - offset);
    }
  }

  // ---------------------------------------------------------------------
  // Trips
  // ---------------------------------------------------------------------

  /** The tables a trip is drawn against. */
  predicate ValidTables(vehicles: seq<Vehicle>, routes: seq<Route>, prices: seq<FuelPrice>) {
    && |vehicles| == FleetSize && (forall k | 0 <= k < |vehicles| :: ValidVehicle(vehicles[k]))
    && |routes| == RouteCount && (forall k | 0 <= k < |routes| :: 100 <= routes[k].distanceKm < 1000)
    && prices != []
  }

  /** Trip number `i`, made from its draws: efficiency from the vehicle, the
      route and the draws, the actual distance a factor of the route's, the
      fuel the distance over the efficiency, the cost the fuel at the day's price. */
  function MakeTrip(i: nat, d: TripDraw, vehicles: seq<Vehicle>, routes: seq<Route>, prices: seq<FuelPrice>, today: int): (t: Trip)
    requires ValidTripDraw(d) && ValidTables(vehicles, routes, prices)
    ensures t.tripId == i && t.day == today - 365 + d.dayOffset && t.loadFactor == d.loadFactor
    ensures var v := vehicles[d.vehicle];
      t.vehicleId == v.id && t.vehicleType == v.vehicleType && t.vehicleAgeYears == v.ageYears
      && t.lastMaintenance == v.lastMaintenance
    ensures var r := routes[d.route];
      t.routeId == r.id && t.routeDistanceKm == r.distanceKm && t.terrain == r.terrain
    ensures 0.5576 <= t.kpl < 5.292
    ensures var rd := routes[d.route].distanceKm as real;
      0.8 * rd <= t.actualDistanceKm < 1.2 * rd
    ensures t.fuelConsumedLiters * t.kpl == t.actualDistanceKm
    ensures t.fuelCostMxn == t.fuelConsumedLiters * PriceFor(prices, t.day).value
  {
    var v := vehicles[d.vehicle];
    var r := routes[d.route];
    var kpl := Kpl(v.vehicleType, v.ageYears, r.terrain, d.baseKpl, d.loadFactor, d.anomaly);
    KplBounds(v.vehicleType, v.ageYears, r.terrain, d.baseKpl, d.loadFactor, d.anomaly);
    var distance := (r.distanceKm as real) * d.distanceFactor;
    MulLe(r.distanceKm as real, r.distanceKm as real, 0.8, d.distanceFactor);
    MulLt(r.distanceKm as real, r.distanceKm as real, d.distanceFactor, 1.2);
    var fuel := distance / kpl;
    var day := today - 365 + d.dayOffset;
    Trip(i, day, v.id, v.vehicleType, v.ageYears, v.lastMaintenance, r.id, r.distanceKm, r.terrain,
         distance, fuel, fuel * PriceFor(prices, day).value, kpl, d.loadFactor)
  }

  /** One pass of the trip loop: the efficiency adjusted factor by factor, the
      price looked up with its fallback, and the trip record. */
  method AssembleTrip(i: nat, d: TripDraw, vehicles: seq<Vehicle>, routes: seq<Route>, prices: seq<FuelPrice>, today: int)
    returns (t: Trip)
    requires ValidTripDraw(d) && ValidTables(vehicles, routes, prices)
    ensures t == MakeTrip(i, d, vehicles, routes, prices, today)
  {
    var v := vehicles[d.vehicle];
    var r := routes[d.route];
    var day := today - 365 + d.dayOffset;
    var consumptionKpl := Efficiency(v, r, d);
    KplBounds(v.vehicleType, v.ageYears, r.terrain, d.baseKpl, d.loadFactor, d.anomaly);
    var distance := (r.distanceKm as real) * d.distanceFactor;
    var fuel := distance / consumptionKpl;
    var price: real;
    var found := FirstPrice(prices, day);
    if found.None? {
      price := Dashboard.Mean(PriceValues(prices)).value;
    } else {
      price := found.value;
    }
    var cost := fuel * price;
    t := Trip(i, day, v.id, v.vehicleType, v.ageYears, v.lastMaintenance, r.id, r.distanceKm,
              r.terrain, distance, fuel, cost, consumptionKpl, d.loadFactor);
  }

  /** generate_data: builds the vehicles, routes and prices tables, then one
      trip per trip draw, appending them in order. */
  method GenerateData(numRecords: nat, today: int,
                      vdraws: seq<VehicleDraw>, rdraws: seq<RouteDraw>, dailyPrices: seq<real>, tdraws: seq<TripDraw>)
    returns (trips: seq<Trip>, vehicles: seq<Vehicle>, routes: seq<Route>, prices: seq<FuelPrice>)
    requires |vdraws| == FleetSize && forall k | 0 <= k < |vdraws| :: ValidVehicleDraw(vdraws[k])
    requires |rdraws| == RouteCount && forall k | 0 <= k < |rdraws| :: ValidRouteDraw(rdraws[k])
    requires |dailyPrices| == PriceDays
    requires |tdraws| == numRecords && forall k | 0 <= k < |tdraws| :: ValidTripDraw(tdraws[k])
    ensures vehicles == Fleet(vdraws, today) && routes == RouteTable(rdraws) && prices == PriceTable(dailyPrices, today)
    ensures |trips| == numRecords
    ensures forall k | 0 <= k < numRecords :: trips[k] == MakeTrip(k, tdraws[k], vehicles, routes, prices, today)
  {
    vehicles := Fleet(vdraws, today);
    routes := RouteTable(rdraws);
    prices := PriceTable(dailyPrices, today);
    trips := TripLoop(numRecords, today, tdraws, vehicles, routes, prices);
  }

  /** The trip loop of generate_data: trip i is assembled from draw i and
      appended. */
  method TripLoop(numRecords: nat, today: int, tdraws: seq<TripDraw>,
                  vehicles: seq<Vehicle>, routes: seq<Route>, prices: seq<FuelPrice>)
    returns (trips: seq<Trip>)
    requires ValidTables(vehicles, routes, prices)
    requires |tdraws| == numRecords && forall k | 0 <= k < |tdraws| :: ValidTripDraw(tdraws[k])
    ensures |trips| == numRecords
    ensures forall k | 0 <= k < numRecords :: trips[k] == MakeTrip(k, tdraws[k], vehicles, routes, prices, today)
  {
    trips := [];
    for i := 0 to numRecords
      invariant |trips| == i
      invariant forall k | 0 <= k < i :: trips[k] == MakeTrip(k, tdraws[k], vehicles, routes, prices, today)
    {
      var t := AssembleTrip(i, tdraws[i], vehicles, routes, prices, today);
      trips := trips + [t];
    }
  }

  /** Every generated trip is numbered by its position and refers to a vehicle
      and a route of the generated tables, whose type, age, terrain and
      distance it carries. */
  lemma GeneratedTripsReferenceTables(numRecords: nat, today: int, vdraws: seq<VehicleDraw>, rdraws: seq<RouteDraw>,
                                      dailyPrices: seq<real>, tdraws: seq<TripDraw>, trips: seq<Trip>)
    requires |vdraws| == FleetSize && forall k | 0 <= k < |vdraws| :: ValidVehicleDraw(vdraws[k])
    requires |rdraws| == RouteCount && forall k | 0 <= k < |rdraws| :: ValidRouteDraw(rdraws[k])
    requires |dailyPrices| == PriceDays
    requires |tdraws| == numRecords && forall k | 0 <= k < |tdraws| :: ValidTripDraw(tdraws[k])
    requires |trips| == numRecords
    requires forall k | 0 <= k < numRecords ::
      trips[k] == MakeTrip(k, tdraws[k], Fleet(vdraws, today), RouteTable(rdraws), PriceTable(dailyPrices, today), today)
    ensures forall k | 0 <= k < |trips| :: trips[k].tripId == k
    ensures forall k | 0 <= k < |trips| :: exists v | v in Fleet(vdraws, today) ::
      v.id == trips[k].vehicleId && v.vehicleType == trips[k].vehicleType && v.ageYears == trips[k].vehicleAgeYears
    ensures forall k | 0 <= k < |trips| :: exists r | r in RouteTable(rdraws) ::
      r.id == trips[k].routeId && r.terrain == trips[k].terrain && r.distanceKm == trips[k].routeDistanceKm
  {
    var vs := Fleet(vdraws, today);
    var rs := RouteTable(rdraws);
    var ps := PriceTable(dailyPrices, today);
    assert ValidTables(vs, rs, ps);
    forall k | 0 <= k < |trips|
      ensures exists r | r in RouteTable(rdraws) ::
        r.id == trips[k].routeId && r.terrain == trips[k].terrain && r.distanceKm == trips[k].routeDistanceKm
      ensures exists v | v in Fleet(vdraws, today) ::
        v.id == trips[k].vehicleId && v.vehicleType == trips[k].vehicleType && v.ageYears == trips[k].vehicleAgeYears
    {
      assert trips[k] == MakeTrip(k, tdraws[k], vs, rs, ps, today);
      var v := vs[tdraws[k].vehicle];
      var r := rs[tdraws[k].route];
      assert v in vs && r in rs;
      assert v.id == trips[k].vehicleId && v.vehicleType == trips[k].vehicleType && v.ageYears == trips[k].vehicleAgeYears;
      assert r.id == trips[k].routeId && r.terrain == trips[k].terrain && r.distanceKm == trips[k].routeDistanceKm;
    }
  }

  /** With every daily price positive, every trip burns a positive amount of
      fuel at a positive cost. */
  lemma TripCostPositive(i: nat, d: TripDraw, vehicles: seq<Vehicle>, routes: seq<Route>, dailyPrices: seq<real>, today: int)
    requires ValidTripDraw(d) && |dailyPrices| == PriceDays && forall j | 0 <= j < PriceDays :: ValidPrice(dailyPrices[j])
    requires ValidTables(vehicles, routes, PriceTable(dailyPrices, today))
    ensures var t := MakeTrip(i, d, vehicles, routes, PriceTable(dailyPrices, today), today);
      t.fuelConsumedLiters > 0.0 && t.fuelCostMxn > 0.0
  {
    var ps := PriceTable(dailyPrices, today);
    var t := MakeTrip(i, d, vehicles, routes, ps, today);
    PriceForBounds(ps, t.day, 18.0, 27.0);
    assert t.actualDistanceKm >= 80.0;
    assert t.fuelConsumedLiters > 0.0;
    MulPos(t.fuelConsumedLiters, PriceFor(ps, t.day).value);
  }
}
