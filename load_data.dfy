/** `load_data` (app.py:12-51) as the source writes it: frames are objects
    that are renamed, converted and trimmed in place, the trips frame is
    replaced by the result of each merge, and the date columns are converted
    in a loop over (frame, column) pairs. `LoadData` is proved to compute
    exactly `Loader.Load`. */
module LoadData {
  import opened Tables
  import opened Loader

  /** A mutable data frame. */
  class DataFrame {
    var columns: seq<string>
    var rows: seq<Row>

    function Value(): Table
      reads this
    {
      Table(columns, rows)
    }

    constructor (t: Table)
      ensures Value() == t
    {
      columns := t.columns;
      rows := t.rows;
    }

    /** `df.rename(columns={from: to}, inplace=True)` */
    method Rename(from: string, to: string) returns (err: Option<Error>)
      modifies this
      ensures err.None? ==> RenameColumn(old(Value()), from, to) == Success(Value())
      ensures err.Some? ==> RenameColumn(old(Value()), from, to) == Failure(err.value) && Value() == old(Value())
    {
      if from !in columns || from == to {
        return None;
      }
      if to in columns {
        return Some(DuplicateColumn(to));
      }
      var kept := rows;
      ghost var expected := RenameColumn(Value(), from, to).value;
      rows := seq(|kept|, k requires 0 <= k < |kept| => RenameRow(kept[k], from, to));
      columns := ReplaceName(columns, from, to);
      assert rows == expected.rows;
      err := None;
    }

    /** Converts a column the frame has to timestamps in place, turning
        unreadable values into missing cells. */
    method ToDatetimeColumn(col: string, parse: Cell -> Option<int>)
      requires col in columns
      modifies this
      ensures Value() == CoerceColumn(old(Value()), col, parse)
    {
      var kept := rows;
      rows := seq(|kept|, k requires 0 <= k < |kept| => CoerceRow(kept[k], col, parse));
    }

    /** `df[col] = df[col].fillna(df[src])` */
    method FillNaFrom(col: string, src: string) returns (err: Option<Error>)
      modifies this
      ensures err.None? ==> FillNa(old(Value()), col, src) == Success(Value())
      ensures err.Some? ==> FillNa(old(Value()), col, src) == Failure(err.value) && Value() == old(Value())
    {
      if col !in columns {
        return Some(MissingColumn(col));
      }
      if src !in columns {
        return Some(MissingColumn(src));
      }
      var kept := rows;
      ghost var expected := FillNa(Value(), col, src).value;
      rows := seq(|kept|, k requires 0 <= k < |kept| => FillRow(kept[k], col, src));
      assert rows == expected.rows;
      err := None;
    }

    /** `df.drop(columns=drop, inplace=True, errors='ignore')` */
    method Drop(drop: seq<string>)
      modifies this
      ensures Value() == DropColumns(old(Value()), drop)
    {
      var kept := rows;
      rows := seq(|kept|, k requires 0 <= k < |kept| => DropRow(kept[k], drop));
      columns := Keep(columns, drop);
    }
  }

  /** Renames the alias columns and converts the date columns of the four
      frames in place. */
  method NormalizeFrames(dfTrips: DataFrame, dfVehicles: DataFrame, dfRoutes: DataFrame, dfPrices: DataFrame,
                         parse: Cell -> Option<int>)
    returns (err: Option<Error>)
    requires dfTrips != dfVehicles && dfTrips != dfRoutes && dfTrips != dfPrices
    requires dfVehicles != dfRoutes && dfVehicles != dfPrices && dfRoutes != dfPrices
    modifies dfTrips, dfVehicles, dfRoutes, dfPrices
    ensures var s := Sources(old(dfTrips.Value()), old(dfVehicles.Value()), old(dfRoutes.Value()), old(dfPrices.Value()));
      if err.None?
      then Normalize(s, parse) == Success(Sources(dfTrips.Value(), dfVehicles.Value(), dfRoutes.Value(), dfPrices.Value()))
      else Normalize(s, parse) == Failure(err.value)
  {
    err := dfVehicles.Rename("age_years", "vehicle_age_years");
    if err.Some? {
      return;
    }
    err := dfRoutes.Rename("distance_km", "route_distance_km");
    if err.Some? {
      return;
    }

    ghost var rt := dfRoutes.Value();
    var jobs := [(dfTrips, "date"), (dfPrices, "date"), (dfVehicles, "last_maintenance")];
    ghost var before := [dfTrips.Value(), dfPrices.Value(), dfVehicles.Value()];
    for j := 0 to |jobs|
      invariant forall k | 0 <= k < |jobs| ::
        jobs[k].0.Value() == if k < j then CoerceColumn(before[k], jobs[k].1, parse) else before[k]
      invariant dfRoutes.Value() == rt
    {
      var df := jobs[j].0;
      if jobs[j].1 in df.columns {
        df.ToDatetimeColumn(jobs[j].1, parse);
      }
    }
    assert jobs[0].0 == dfTrips && jobs[1].0 == dfPrices && jobs[2].0 == dfVehicles;
    assert before[0] == old(dfTrips.Value()) && before[1] == old(dfPrices.Value());
  }

  /** The guarded backfills, in place. */
  method CompleteFrame(df: DataFrame) returns (err: Option<Error>)
    modifies df
    ensures if err.None? then Complete(old(df.Value())) == Success(df.Value()) else Complete(old(df.Value())) == Failure(err.value)
  {
    if "vehicle_type_veh" in df.columns {
      err := df.FillNaFrom("vehicle_type", "vehicle_type_veh");
      if err.Some? {
        return;
      }
    }
    if "terrain_route" in df.columns {
      err := df.FillNaFrom("terrain", "terrain_route");
      if err.Some? {
        return;
      }
    }
    if "route_distance_km_route" in df.columns {
      err := df.FillNaFrom("route_distance_km", "route_distance_km_route");
      if err.Some? {
        return;
      }
    }
    err := None;
  }

  /** The loader. Each source frame is None when its file cannot be read. */
  method LoadData(trips: Option<Table>, vehicles: Option<Table>, routes: Option<Table>, prices: Option<Table>,
                  parse: Cell -> Option<int>)
    returns (r: Result<(Table, Table)>)
    ensures r == Load(trips, vehicles, routes, prices, parse)
  {
    if trips.None? || vehicles.None? || routes.None? || prices.None? {
      return Success((Empty, Empty));
    }
    var dfTrips := new DataFrame(trips.value);
    var dfVehicles := new DataFrame(vehicles.value);
    var dfRoutes := new DataFrame(routes.value);
    var dfPrices := new DataFrame(prices.value);

    var err := NormalizeFrames(dfTrips, dfVehicles, dfRoutes, dfPrices, parse);
    if err.Some? {
      return Failure(err.value);
    }

    var merged := Merge(dfTrips.Value(), dfVehicles.Value(), "vehicle_id", "_veh");
    if merged.Failure? {
      return Failure(merged.error);
    }
    dfTrips := new DataFrame(merged.value);
    merged := Merge(dfTrips.Value(), dfRoutes.Value(), "route_id", "_route");
    if merged.Failure? {
      return Failure(merged.error);
    }
    dfTrips := new DataFrame(merged.value);

    err := CompleteFrame(dfTrips);
    if err.Some? {
      return Failure(err.value);
    }

    var toDrop := RedundantColumns(dfTrips.columns);
    dfTrips.Drop(toDrop);
    return Success((dfTrips.Value(), dfPrices.Value()));
  }
}
