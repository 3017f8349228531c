/** What `load_data` (app.py:12-51) guarantees about the joined trips frame as
    a whole: under unique vehicle and route keys it keeps every trip, once and
    in order, with its own cells, and the three attributes it shares with the
    parent frames are taken from the trip when present and from the parent
    otherwise. */
module LoaderFacts {
  import opened Tables
  import opened Loader

  /** The cell `col` of a row after `fillna` from `src`, when the frame has `src`. */
  function Backfilled(row: Row, col: string, src: string, cols: seq<string>): Cell {
    if src in cols && Get(row, col).Missing? then Get(row, src) else Get(row, col)
  }

  /** The three columns the loader backfills. */
  predicate Filled(c: string) {
    c == "vehicle_type" || c == "terrain" || c == "route_distance_km"
  }

  lemma BackfillCells(t: Table, col: string, src: string)
    requires Backfill(t, col, src).Success?
    ensures var r := Backfill(t, col, src).value;
      && r.columns == t.columns && |r.rows| == |t.rows|
      && (forall k | 0 <= k < |t.rows| :: Get(r.rows[k], col) == Backfilled(t.rows[k], col, src, t.columns))
      && (forall k, c | 0 <= k < |t.rows| && c != col :: Get(r.rows[k], c) == Get(t.rows[k], c))
  {
  }

  /** The backfills of app.py:40-45 fill each of the three attributes from its
      suffixed twin, where that twin exists, and change nothing else. */
  lemma CompleteCells(t: Table)
    requires Complete(t).Success?
    ensures var r := Complete(t).value;
      && r.columns == t.columns && |r.rows| == |t.rows|
      && (forall k | 0 <= k < |t.rows| ::
            && Get(r.rows[k], "vehicle_type") == Backfilled(t.rows[k], "vehicle_type", "vehicle_type_veh", t.columns)
            && Get(r.rows[k], "terrain") == Backfilled(t.rows[k], "terrain", "terrain_route", t.columns)
            && Get(r.rows[k], "route_distance_km")
                 == Backfilled(t.rows[k], "route_distance_km", "route_distance_km_route", t.columns))
      && (forall k, c | 0 <= k < |t.rows| && !Filled(c) :: Get(r.rows[k], c) == Get(t.rows[k], c))
  {
    var t3 := Backfill(t, "vehicle_type", "vehicle_type_veh").value;
    BackfillCells(t, "vehicle_type", "vehicle_type_veh");
    var t4 := Backfill(t3, "terrain", "terrain_route").value;
    BackfillCells(t3, "terrain", "terrain_route");
    BackfillCells(t4, "route_distance_km", "route_distance_km_route");
  }

  lemma NotRedundantNames()
    ensures !Redundant("vehicle_type") && !Redundant("terrain") && !Redundant("route_distance_km")
  {
    assert "vehicle_type"[|"vehicle_type"| - 4..] == "type";
    assert "vehicle_type"[|"vehicle_type"| - 6..] == "e_type";
    assert "terrain"[|"terrain"| - 4..] == "rain";
    assert "terrain"[|"terrain"| - 6..] == "errain";
    assert "route_distance_km"[|"route_distance_km"| - 4..] == "e_km";
    assert "route_distance_km"[|"route_distance_km"| - 6..] == "nce_km";
  }

  lemma SuffixedNames()
    ensures "vehicle_type" + "_veh" == "vehicle_type_veh"
    ensures "terrain" + "_route" == "terrain_route"
    ensures "route_distance_km" + "_route" == "route_distance_km_route"
  {
  }

  /** The trips frame after the two merges of app.py:36-37. */
  function Merged(s: Sources): Result<Table> {
    var t1 :- Merge(s.trips, s.vehicles, "vehicle_id", "_veh");
    Merge(t1, s.routes, "route_id", "_route")
  }

  /** The preconditions of a clean join: parent frames with distinct labels
      and unique keys. */
  ghost predicate Keyed(s: Sources) {
    && Distinct(s.vehicles.columns) && UniqueKey(s.vehicles.rows, "vehicle_id")
    && Distinct(s.routes.columns) && UniqueKey(s.routes.rows, "route_id")
  }

  /** Across both merges every trip row survives once and in order, with its
      own cells; the vehicle and route with the trip's keys supply theirs. */
  lemma MergedCells(s: Sources)
    requires Keyed(s) && Merged(s).Success?
    ensures var t1 := Merge(s.trips, s.vehicles, "vehicle_id", "_veh").value;
      var t2 := Merged(s).value;
      && |t2.rows| == |s.trips.rows| && |t1.rows| == |s.trips.rows|
      && s.trips.columns <= t1.columns && t1.columns <= t2.columns
      && (forall i, c | 0 <= i < |s.trips.rows| && c in s.trips.columns :: Get(t2.rows[i], c) == Get(s.trips.rows[i], c))
      && (forall i, c | 0 <= i < |s.trips.rows| && c in t1.columns :: Get(t2.rows[i], c) == Get(t1.rows[i], c))
  {
    var t1 := Merge(s.trips, s.vehicles, "vehicle_id", "_veh").value;
    MergeKeepsLeftRows(s.trips, s.vehicles, "vehicle_id", "_veh");
    MergeKeepsLeftRows(t1, s.routes, "route_id", "_route");
    var t2 := Merged(s).value;
    forall i, c | 0 <= i < |s.trips.rows| && c in s.trips.columns
      ensures Get(t2.rows[i], c) == Get(s.trips.rows[i], c)
    {
      assert c in t1.columns;
    }
  }

  /** One cell a merge takes from the right frame, for left row `i`. */
  lemma MergeRightCellAt(l: Table, r: Table, on: string, suffix: string, i: nat, c: string)
    requires Distinct(r.columns) && UniqueKey(r.rows, on) && Merge(l, r, on, suffix).Success?
    requires i < |l.rows| && c in r.columns && c != on
    ensures var m := Merge(l, r, on, suffix).value;
      && |m.rows| == |l.rows|
      && (forall k | 0 <= k < |r.rows| && Get(r.rows[k], on) == Get(l.rows[i], on) ::
            Get(m.rows[i], RightName(c, l.columns, suffix)) == Get(r.rows[k], c))
      && (!HasMatch(r.rows, on, Get(l.rows[i], on)) ==> Get(m.rows[i], RightName(c, l.columns, suffix)) == Missing)
  {
    MergeRightCells(l, r, on, suffix);
  }

  /** The joined frame is the backfilled one with the suffixed columns gone. */
  lemma JoinTripsCells(s: Sources)
    requires JoinTrips(s).Success?
    ensures Merged(s).Success? && Complete(Merged(s).value).Success?
    ensures var t5 := Complete(Merged(s).value).value;
      && |JoinTrips(s).value.rows| == |t5.rows|
      && forall i, c | 0 <= i < |t5.rows| && !Redundant(c) :: Get(JoinTrips(s).value.rows[i], c) == Get(t5.rows[i], c)
  {
    var t5 := Complete(Merged(s).value).value;
    assert JoinTrips(s).value == DropColumns(t5, RedundantColumns(t5.columns));
  }

  /** JoinTripsCells for one cell. */
  lemma JoinTripsCellAt(s: Sources, i: nat, c: string)
    requires JoinTrips(s).Success? && !Redundant(c)
    ensures Merged(s).Success? && Complete(Merged(s).value).Success?
    ensures var t5 := Complete(Merged(s).value).value;
      |JoinTrips(s).value.rows| == |t5.rows| && (i < |t5.rows| ==> Get(JoinTrips(s).value.rows[i], c) == Get(t5.rows[i], c))
  {
    JoinTripsCells(s);
  }

  /** CompleteCells for one row. */
  lemma CompleteCellsAt(t: Table, k: nat)
    requires Complete(t).Success? && k < |t.rows|
    ensures var r := Complete(t).value;
      && r.columns == t.columns && |r.rows| == |t.rows|
      && Get(r.rows[k], "vehicle_type") == Backfilled(t.rows[k], "vehicle_type", "vehicle_type_veh", t.columns)
      && Get(r.rows[k], "terrain") == Backfilled(t.rows[k], "terrain", "terrain_route", t.columns)
      && Get(r.rows[k], "route_distance_km")
           == Backfilled(t.rows[k], "route_distance_km", "route_distance_km_route", t.columns)
  {
    CompleteCells(t);
  }

  /** The left join keeps every trip: with unique vehicle and route keys the
      joined frame has one row per trip, in the trips' order, and each keeps
      the trip's own cells, except the three backfilled attributes where the
      trip's cell was missing. */
  lemma JoinTripsKeepsTrips(s: Sources)
    requires Keyed(s) && JoinTrips(s).Success?
    ensures |JoinTrips(s).value.rows| == |s.trips.rows|
    ensures forall c | c in s.trips.columns && !Redundant(c) :: c in JoinTrips(s).value.columns
    ensures forall i, c | 0 <= i < |s.trips.rows| && c in s.trips.columns && !Redundant(c)
                          && !(Filled(c) && Get(s.trips.rows[i], c).Missing?) ::
      Get(JoinTrips(s).value.rows[i], c) == Get(s.trips.rows[i], c)
  {
    JoinTripsCells(s);
    var t2 := Merged(s).value;
    MergedCells(s);
    CompleteCells(t2);
    var t5 := Complete(t2).value;
    assert JoinTrips(s).value == DropColumns(t5, RedundantColumns(t5.columns));
  }

  /** After the vehicle merge, the suffixed vehicle type of each trip is its
      vehicle's type, or missing when no vehicle has its id. */
  lemma MergedVehicleType(s: Sources, i: nat)
    requires Keyed(s) && Merged(s).Success? && i < |s.trips.rows|
    requires "vehicle_type" in s.trips.columns && "vehicle_type" in s.vehicles.columns
    ensures var t2 := Merged(s).value;
      && "vehicle_type_veh" in t2.columns && i < |t2.rows|
      && (forall k | 0 <= k < |s.vehicles.rows| && Get(s.vehicles.rows[k], "vehicle_id") == Get(s.trips.rows[i], "vehicle_id") ::
            Get(t2.rows[i], "vehicle_type_veh") == Get(s.vehicles.rows[k], "vehicle_type"))
      && (!HasMatch(s.vehicles.rows, "vehicle_id", Get(s.trips.rows[i], "vehicle_id")) ==>
            Get(t2.rows[i], "vehicle_type_veh") == Missing)
  {
    var t1 := Merge(s.trips, s.vehicles, "vehicle_id", "_veh").value;
    MergeRightCellAt(s.trips, s.vehicles, "vehicle_id", "_veh", i, "vehicle_type");
    SuffixedNames();
    assert "vehicle_type_veh" in t1.columns;
    MergeLeftCells(t1, s.routes, "route_id", "_route");
  }

  lemma JoinTripsVehicleTypeAt(s: Sources, i: nat)
    requires Keyed(s) && JoinTrips(s).Success? && i < |s.trips.rows|
    requires "vehicle_type" in s.trips.columns && "vehicle_type" in s.vehicles.columns
    requires Get(s.trips.rows[i], "vehicle_type").Missing?
    ensures i < |JoinTrips(s).value.rows|
    ensures forall k | 0 <= k < |s.vehicles.rows| && Get(s.vehicles.rows[k], "vehicle_id") == Get(s.trips.rows[i], "vehicle_id") ::
      Get(JoinTrips(s).value.rows[i], "vehicle_type") == Get(s.vehicles.rows[k], "vehicle_type")
    ensures !HasMatch(s.vehicles.rows, "vehicle_id", Get(s.trips.rows[i], "vehicle_id")) ==>
      Get(JoinTrips(s).value.rows[i], "vehicle_type") == Missing
  {
    var t2 := Merged(s).value;
    NotRedundantNames();
    MergedVehicleType(s, i);
    MergedCells(s);
    CompleteCellsAt(t2, i);
    JoinTripsCellAt(s, i, "vehicle_type");
  }

  /** A trip without a vehicle type takes the type of its vehicle (app.py:40-41);
      with no vehicle of that id it stays missing. */
  lemma JoinTripsVehicleType(s: Sources)
    requires Keyed(s) && JoinTrips(s).Success?
    requires "vehicle_type" in s.trips.columns && "vehicle_type" in s.vehicles.columns
    ensures forall i | 0 <= i < |s.trips.rows| && Get(s.trips.rows[i], "vehicle_type").Missing? ::
      && i < |JoinTrips(s).value.rows|
      && (forall k | 0 <= k < |s.vehicles.rows| && Get(s.vehicles.rows[k], "vehicle_id") == Get(s.trips.rows[i], "vehicle_id") ::
            Get(JoinTrips(s).value.rows[i], "vehicle_type") == Get(s.vehicles.rows[k], "vehicle_type"))
      && (!HasMatch(s.vehicles.rows, "vehicle_id", Get(s.trips.rows[i], "vehicle_id")) ==>
            Get(JoinTrips(s).value.rows[i], "vehicle_type") == Missing)
  {
    forall i | 0 <= i < |s.trips.rows| && Get(s.trips.rows[i], "vehicle_type").Missing?
      ensures i < |JoinTrips(s).value.rows|
      ensures forall k | 0 <= k < |s.vehicles.rows| && Get(s.vehicles.rows[k], "vehicle_id") == Get(s.trips.rows[i], "vehicle_id") ::
        Get(JoinTrips(s).value.rows[i], "vehicle_type") == Get(s.vehicles.rows[k], "vehicle_type")
      ensures !HasMatch(s.vehicles.rows, "vehicle_id", Get(s.trips.rows[i], "vehicle_id")) ==>
        Get(JoinTrips(s).value.rows[i], "vehicle_type") == Missing
    {
      JoinTripsVehicleTypeAt(s, i);
    }
  }

  /** After the route merge, the suffixed terrain or route distance of each
      trip is its route's, or missing when no route has its id. */
  lemma MergedRouteAttribute(s: Sources, col: string, i: nat)
    requires col == "terrain" || col == "route_distance_km"
    requires Keyed(s) && Merged(s).Success? && i < |s.trips.rows|
    requires "route_id" in s.trips.columns && col in s.trips.columns && col in s.routes.columns
    ensures var t2 := Merged(s).value;
      && col + "_route" in t2.columns && i < |t2.rows|
      && (forall k | 0 <= k < |s.routes.rows| && Get(s.routes.rows[k], "route_id") == Get(s.trips.rows[i], "route_id") ::
            Get(t2.rows[i], col + "_route") == Get(s.routes.rows[k], col))
      && (!HasMatch(s.routes.rows, "route_id", Get(s.trips.rows[i], "route_id")) ==>
            Get(t2.rows[i], col + "_route") == Missing)
  {
    var t1 := Merge(s.trips, s.vehicles, "vehicle_id", "_veh").value;
    MergedCells(s);
    assert col in t1.columns && Get(t1.rows[i], "route_id") == Get(s.trips.rows[i], "route_id") by {
      MergeLeftCells(s.trips, s.vehicles, "vehicle_id", "_veh");
    }
    MergeRightCellAt(t1, s.routes, "route_id", "_route", i, col);
    assert RightName(col, t1.columns, "_route") == col + "_route";
  }

  lemma JoinTripsRouteAttributeAt(s: Sources, col: string, i: nat)
    requires col == "terrain" || col == "route_distance_km"
    requires Keyed(s) && JoinTrips(s).Success? && i < |s.trips.rows|
    requires "route_id" in s.trips.columns && col in s.trips.columns && col in s.routes.columns
    requires Get(s.trips.rows[i], col).Missing?
    ensures i < |JoinTrips(s).value.rows|
    ensures forall k | 0 <= k < |s.routes.rows| && Get(s.routes.rows[k], "route_id") == Get(s.trips.rows[i], "route_id") ::
      Get(JoinTrips(s).value.rows[i], col) == Get(s.routes.rows[k], col)
    ensures !HasMatch(s.routes.rows, "route_id", Get(s.trips.rows[i], "route_id")) ==>
      Get(JoinTrips(s).value.rows[i], col) == Missing
  {
    var t2 := Merged(s).value;
    NotRedundantNames();
    SuffixedNames();
    MergedRouteAttribute(s, col, i);
    MergedCells(s);
    CompleteCellsAt(t2, i);
    JoinTripsCellAt(s, i, col);
  }

  /** A trip without a terrain or a route distance takes its route's
      (app.py:42-45); with no route of that id it stays missing. */
  lemma JoinTripsRouteAttribute(s: Sources, col: string)
    requires col == "terrain" || col == "route_distance_km"
    requires Keyed(s) && JoinTrips(s).Success?
    requires "route_id" in s.trips.columns && col in s.trips.columns && col in s.routes.columns
    ensures forall i | 0 <= i < |s.trips.rows| && Get(s.trips.rows[i], col).Missing? ::
      && i < |JoinTrips(s).value.rows|
      && (forall k | 0 <= k < |s.routes.rows| && Get(s.routes.rows[k], "route_id") == Get(s.trips.rows[i], "route_id") ::
            Get(JoinTrips(s).value.rows[i], col) == Get(s.routes.rows[k], col))
      && (!HasMatch(s.routes.rows, "route_id", Get(s.trips.rows[i], "route_id")) ==>
            Get(JoinTrips(s).value.rows[i], col) == Missing)
  {
    forall i | 0 <= i < |s.trips.rows| && Get(s.trips.rows[i], col).Missing?
      ensures i < |JoinTrips(s).value.rows|
      ensures forall k | 0 <= k < |s.routes.rows| && Get(s.routes.rows[k], "route_id") == Get(s.trips.rows[i], "route_id") ::
        Get(JoinTrips(s).value.rows[i], col) == Get(s.routes.rows[k], col)
      ensures !HasMatch(s.routes.rows, "route_id", Get(s.trips.rows[i], "route_id")) ==>
        Get(JoinTrips(s).value.rows[i], col) == Missing
    {
      JoinTripsRouteAttributeAt(s, col, i);
    }
  }

  /** Renaming to a free label keeps the labels distinct. */
  lemma RenameKeepsDistinct(t: Table, from: string, to: string)
    requires Distinct(t.columns) && RenameColumn(t, from, to).Success?
    ensures Distinct(RenameColumn(t, from, to).value.columns)
  {
    var r := RenameColumn(t, from, to).value;
    forall i, j | 0 <= i < j < |r.columns| ensures r.columns[i] != r.columns[j] {
      if t.columns[i] != from && t.columns[j] != from {
      } else if t.columns[i] == from {
        assert t.columns[j] != from;
        assert t.columns[j] in t.columns;
      } else {
        assert t.columns[i] in t.columns;
      }
    }
  }

  /** Renaming and date coercion leave the join keys of the parent frames as
      they were. */
  lemma NormalizeKeepsKeys(s: Sources, parse: Cell -> Option<int>)
    requires Distinct(s.vehicles.columns) && UniqueKey(s.vehicles.rows, "vehicle_id")
    requires Distinct(s.routes.columns) && UniqueKey(s.routes.rows, "route_id")
    requires Normalize(s, parse).Success?
    ensures Keyed(Normalize(s, parse).value)
    ensures var n := Normalize(s, parse).value;
      n.trips == CoerceColumn(s.trips, "date", parse) && n.prices == CoerceColumn(s.prices, "date", parse)
  {
    var v := RenameColumn(s.vehicles, "age_years", "vehicle_age_years");
    var rt := RenameColumn(s.routes, "distance_km", "route_distance_km");
    RenameKeepsDistinct(s.vehicles, "age_years", "vehicle_age_years");
    RenameKeepsDistinct(s.routes, "distance_km", "route_distance_km");
    var n := Normalize(s, parse).value;
    assert n.vehicles == CoerceColumn(v.value, "last_maintenance", parse);
    forall i, j | 0 <= i < j < |n.vehicles.rows|
      ensures Get(n.vehicles.rows[i], "vehicle_id") != Get(n.vehicles.rows[j], "vehicle_id")
    {
      assert Get(n.vehicles.rows[i], "vehicle_id") == Get(s.vehicles.rows[i], "vehicle_id");
      assert Get(n.vehicles.rows[j], "vehicle_id") == Get(s.vehicles.rows[j], "vehicle_id");
    }
    forall i, j | 0 <= i < j < |n.routes.rows|
      ensures Get(n.routes.rows[i], "route_id") != Get(n.routes.rows[j], "route_id")
    {
      assert Get(n.routes.rows[i], "route_id") == Get(s.routes.rows[i], "route_id");
      assert Get(n.routes.rows[j], "route_id") == Get(s.routes.rows[j], "route_id");
    }
  }

  /** load_data never drops or repeats a trip: with unique vehicle and route
      ids it returns one row per trip, in order, each with the trip's own
      cells (the date converted), and the price frame with its dates converted. */
  lemma LoadKeepsEveryTrip(trips: Table, vehicles: Table, routes: Table, prices: Table, parse: Cell -> Option<int>)
    requires Distinct(vehicles.columns) && UniqueKey(vehicles.rows, "vehicle_id")
    requires Distinct(routes.columns) && UniqueKey(routes.rows, "route_id")
    requires Load(Some(trips), Some(vehicles), Some(routes), Some(prices), parse).Success?
    ensures var (joined, fuelPrices) := Load(Some(trips), Some(vehicles), Some(routes), Some(prices), parse).value;
      && |joined.rows| == |trips.rows|
      && (forall i, c | 0 <= i < |trips.rows| && c in trips.columns && !Redundant(c) && c != "date"
                        && !(Filled(c) && Get(trips.rows[i], c).Missing?) ::
            Get(joined.rows[i], c) == Get(trips.rows[i], c))
      && (forall i | 0 <= i < |trips.rows| && "date" in trips.columns ::
            Get(joined.rows[i], "date") == ToDatetime(Get(trips.rows[i], "date"), parse))
      && fuelPrices == CoerceColumn(prices, "date", parse)
  {
    var s := Sources(trips, vehicles, routes, prices);
    NormalizeKeepsKeys(s, parse);
    var n := Normalize(s, parse).value;
    JoinTripsKeepsTrips(n);
    assert !Redundant("date") && !Filled("date") by {
      assert "date"[|"date"| - 4..] == "date";
    }
  }

  // ---------------------------------------------------------------------
  // When the loader succeeds
  // ---------------------------------------------------------------------

  /** No label of `cs` already ends in one of the two merge suffixes. */
  predicate Clean(cs: seq<string>) {
    forall c | c in cs :: !Redundant(c)
  }

  /** A suffixed label ends in its own suffix and not in the other one. */
  lemma SuffixedLabel(c: string)
    ensures EndsWith(c + "_veh", "_veh") && !EndsWith(c + "_veh", "_route")
    ensures EndsWith(c + "_route", "_route") && !EndsWith(c + "_route", "_veh")
  {
    var v := c + "_veh";
    var r := c + "_route";
    assert v[|v| - 4..] == "_veh" && v[|v| - 1] == 'h';
    assert r[|r| - 6..] == "_route" && r[|r| - 1] == 'e';
    LastOfSuffix(v, "_route");
    LastOfSuffix(r, "_veh");
  }

  /** A string ending in `suffix` ends in its last character. */
  lemma LastOfSuffix(s: string, suffix: string)
    requires |suffix| > 0
    ensures EndsWith(s, suffix) ==> s[|s| - 1] == suffix[|suffix| - 1]
  {
    if EndsWith(s, suffix) {
      assert s[|s| - 1] == s[|s| - |suffix|..][|suffix| - 1];
    }
  }

  /** After the two merges, a label `attr` + `_veh` stands beside `attr`. */
  lemma VehicleTwin(s: Sources, attr: string)
    requires Clean(s.trips.columns) && Clean(s.vehicles.columns) && Clean(s.routes.columns)
    requires Merged(s).Success? && attr + "_veh" in Merged(s).value.columns
    ensures attr in Merged(s).value.columns
  {
    var twin := attr + "_veh";
    SuffixedLabel(attr);
    assert twin[..|twin| - 4] == attr;
    var t1 := Merge(s.trips, s.vehicles, "vehicle_id", "_veh").value;
    MergedLabel(t1, s.routes, "route_id", "_route", twin);
    MergedLabel(s.trips, s.vehicles, "vehicle_id", "_veh", twin);
  }

  /** After the two merges, a label `attr` + `_route` stands beside `attr`. */
  lemma RouteTwin(s: Sources, attr: string)
    requires Clean(s.trips.columns) && Clean(s.vehicles.columns) && Clean(s.routes.columns)
    requires Merged(s).Success? && attr + "_route" in Merged(s).value.columns
    ensures attr in Merged(s).value.columns
  {
    var twin := attr + "_route";
    SuffixedLabel(attr);
    assert twin[..|twin| - 6] == attr;
    var t1 := Merge(s.trips, s.vehicles, "vehicle_id", "_veh").value;
    if twin in t1.columns {
      MergedLabel(s.trips, s.vehicles, "vehicle_id", "_veh", twin);
    }
    MergedLabel(t1, s.routes, "route_id", "_route", twin);
  }

  /** After the two merges, a suffixed twin of one of the three attributes
      exists only beside the attribute itself. */
  lemma TwinsHaveAttributes(s: Sources)
    requires Clean(s.trips.columns) && Clean(s.vehicles.columns) && Clean(s.routes.columns)
    requires Merged(s).Success?
    ensures "vehicle_type_veh" in Merged(s).value.columns ==> "vehicle_type" in Merged(s).value.columns
    ensures "terrain_route" in Merged(s).value.columns ==> "terrain" in Merged(s).value.columns
    ensures "route_distance_km_route" in Merged(s).value.columns ==> "route_distance_km" in Merged(s).value.columns
  {
    var t2 := Merged(s).value;
    SuffixedNames();
    if "vehicle_type_veh" in t2.columns {
      VehicleTwin(s, "vehicle_type");
    }
    if "terrain_route" in t2.columns {
      RouteTwin(s, "terrain");
    }
    if "route_distance_km_route" in t2.columns {
      RouteTwin(s, "route_distance_km");
    }
  }

  /** The join of app.py:35-49 goes through whenever the trips frame holds
      both keys, each parent frame holds its own key, and no input label
      already ends in `_veh` or `_route`: the merges then meet no clash and
      every backfill finds the column it fills. */
  lemma JoinTripsSucceeds(s: Sources)
    requires "vehicle_id" in s.trips.columns && "vehicle_id" in s.vehicles.columns
    requires "route_id" in s.trips.columns && "route_id" in s.routes.columns
    requires Clean(s.trips.columns) && Clean(s.vehicles.columns) && Clean(s.routes.columns)
    ensures JoinTrips(s).Success?
  {
    forall c ensures Redundant(c + "_veh") && Redundant(c + "_route") && !EndsWith(c + "_route", "_veh") {
      SuffixedLabel(c);
    }
    MergeSucceeds(s.trips, s.vehicles, "vehicle_id", "_veh");
    var t1 := Merge(s.trips, s.vehicles, "vehicle_id", "_veh").value;
    assert "route_id" in t1.columns;
    forall c | c in s.routes.columns && c != "route_id" && c in t1.columns
      ensures c + "_route" !in t1.columns
    {
      if c + "_route" in t1.columns {
        MergedLabel(s.trips, s.vehicles, "vehicle_id", "_veh", c + "_route");
      }
    }
    MergeSucceeds(t1, s.routes, "route_id", "_route");
    var t2 := Merged(s).value;
    TwinsHaveAttributes(s);
    var t3 := Backfill(t2, "vehicle_type", "vehicle_type_veh");
    assert t3.Success? && t3.value.columns == t2.columns;
    var t4 := Backfill(t3.value, "terrain", "terrain_route");
    assert t4.Success? && t4.value.columns == t2.columns;
    assert Backfill(t4.value, "route_distance_km", "route_distance_km_route").Success?;
  }

  /** `load_data` returns a joined frame, and not an error, for any four
      files whose trips hold both keys, whose parents hold their own key,
      whose labels do not already end in `_veh` or `_route`, and whose
      renames (app.py:23-24) do not collide with a label already present. */
  lemma LoadSucceeds(trips: Table, vehicles: Table, routes: Table, prices: Table, parse: Cell -> Option<int>)
    requires "vehicle_id" in trips.columns && "vehicle_id" in vehicles.columns
    requires "route_id" in trips.columns && "route_id" in routes.columns
    requires Clean(trips.columns) && Clean(vehicles.columns) && Clean(routes.columns)
    requires !("age_years" in vehicles.columns && "vehicle_age_years" in vehicles.columns)
    requires !("distance_km" in routes.columns && "route_distance_km" in routes.columns)
    ensures Load(Some(trips), Some(vehicles), Some(routes), Some(prices), parse).Success?
  {
    RenamedLabels();
    var v := RenameColumn(vehicles, "age_years", "vehicle_age_years");
    var rt := RenameColumn(routes, "distance_km", "route_distance_km");
    RenameKeepsLabel(vehicles, "age_years", "vehicle_age_years", "vehicle_id");
    RenameKeepsLabel(routes, "distance_km", "route_distance_km", "route_id");
    var n := Normalize(Sources(trips, vehicles, routes, prices), parse);
    assert n.Success?;
    JoinTripsSucceeds(n.value);
  }

  lemma RenamedLabels()
    ensures !Redundant("vehicle_age_years") && !Redundant("route_distance_km")
  {
    NotRedundantNames();
    assert "vehicle_age_years"[|"vehicle_age_years"| - 4..] == "ears";
    assert "vehicle_age_years"[|"vehicle_age_years"| - 6..] == "_years";
  }

  /** A rename to a label that is not suffixed keeps a clean frame clean and
      keeps every other label. */
  lemma RenameKeepsLabel(t: Table, from: string, to: string, keep: string)
    requires Clean(t.columns) && !Redundant(to) && keep in t.columns && keep != from
    requires RenameColumn(t, from, to).Success?
    ensures Clean(RenameColumn(t, from, to).value.columns)
    ensures keep in RenameColumn(t, from, to).value.columns
  {
    var r := RenameColumn(t, from, to).value;
    forall c | c in r.columns ensures !Redundant(c) {
      var i :| 0 <= i < |r.columns| && r.columns[i] == c;
      assert t.columns[i] in t.columns;
    }
    var i :| 0 <= i < |t.columns| && t.columns[i] == keep;
    assert r.columns[i] == keep;
  }
}
