# Fuel dashboard: a verified model of its data pipeline

The fuel dashboard shows what a trucking fleet spends on fuel. It has two
pipelines, and this project models both in Dafny.

- **Generator** (`generate_data.py`). It builds a fleet of ten vehicles
  (`V000`..`V009`), five routes (`R000`..`R004`), a year of daily fuel
  prices, and `num_records` trips. Each trip's efficiency (km per liter)
  starts from a random base and is scaled by the vehicle type, the vehicle
  age, the terrain, the load and sometimes an anomaly. The trip's fuel is
  its distance over that efficiency, and its cost is the fuel times the
  price of the trip's day, or the mean price when that day is not in the
  table.
- **Loader** (`load_data` in `app.py`). It reads the four tables. It
  renames `age_years` and `distance_km`, converts the date columns, and
  left-joins trips with vehicles and with routes. It fills the trip's
  `vehicle_type`, `terrain` and `route_distance_km` from the joined copies,
  then drops the suffixed copies.
- **Aggregates** (`app.py`). The dashboard shows three of them: column
  sums, a column mean, and the mean efficiency per vehicle type or per
  terrain, listed from the largest mean down.

## Files

| file | contents |
|---|---|
| `tables.dfy` | Frames as column labels plus rows. A row maps labels to cells (missing, text, number, timestamp). Also `Result`, the errors, and well-formedness. |
| `loader.dfy` | Each `load_data` step as a function over whole frames: rename, date coercion, left merge with suffixes, fillna, drop. `Load` composes them. |
| `load_data.dfy` | `load_data` as the source writes it. It has a mutable `DataFrame` class with in-place methods and the `for` loop over (frame, column) pairs. It is proved equal to `Loader.Load`. |
| `loader_facts.dfy` | Whole-pipeline guarantees of the loader: every trip is kept once and in order, and the three attributes are coalesced. |
| `dashboard.dfy` | Sums, means, the overview figures and the group-by mean sorted descending. |
| `ids.dfy` | The zero-padded identifiers and their inverse. |
| `generator.dfy` | The generator. Its random draws are parameters with the ranges the source draws them from. `TripLoop` is the trip loop, with invariants. |

Modelling choices:

- A cell the frame lacks reads as missing (NaN, NaT and None alike).
- The date parser of `pd.to_datetime` is an abstract partial function
  `parse`. One parser serves all three date columns.
- Dates are day numbers, and the day the generator runs is the parameter
  `today`.
- Quantities are exact reals.
- The multipliers follow the code, not its comments. At
  generate_data.py:46 the comment calls Truck B more efficient, but the code
  scales Truck B's efficiency by 0.95. `Generator.KplByVehicleType` proves
  the order the code gives: Truck A, then B, then C.

## Model

| member | source | states |
|---|---|---|
| `Loader.RenameColumn` | app.py:23-24 | `rename` relabels one column. The column order and every row are kept. The renamed column carries the old cells, and every other cell is unchanged. A label the frame lacks leaves it untouched. A target label already in use is a failure. |
| `Loader.RenamePreservesWellFormed` | app.py:23-24 | Renaming keeps the frame well formed. |
| `Loader.ToDatetime` | app.py:33 | `errors='coerce'`: a value the parser cannot read becomes missing instead of raising. Missing stays missing, a timestamp stays as it is, and a readable value becomes its timestamp. |
| `Loader.Normalize` | app.py:23-33 | The two renames and the date coercion fail exactly when a rename target label is already in use. On success the trips and prices frames keep their labels, every frame keeps its rows, and the renamed labels are present wherever the old ones were. |
| `Loader.CoerceColumn` | app.py:27-33 | Only the named column is converted, and only when the frame has it. No other cell, label or row changes. |
| `Loader.Merge` | app.py:36-37 | A left merge fails with a KeyError when either frame lacks the key. A successful merge keeps the left labels first, unchanged. A right label the left frame also has gets the suffix; any other right label stays bare. |
| `Loader.MergeSucceeds` | app.py:36-37 | A merge succeeds exactly when both frames hold the key and no suffixed label coincides with a label of either frame. |
| `Loader.MergedLabel` | app.py:36-37 | Every merged label is a left label, a right label, or a left label with the suffix appended. |
| `Loader.MatchesUnique` | app.py:36-37 | With a unique right key, a left key matches at most one right row, namely the row with that key. |
| `Loader.Matches` | app.py:36-37 | The right rows a left key joins with. Each is a right row holding that key, and there are no more of them than right rows. A missing key matches a missing key. |
| `Loader.MatchesFound` | app.py:36-37 | Every right row whose key equals the left key is among the matches. |
| `Loader.JoinRows` | app.py:36-37 | The rows of a left join, left row by left row: a left join never has fewer rows than the left frame. |
| `Loader.JoinRowsKeepEach` | app.py:36-37 | Whatever the right key, every left row reappears in the join with all of its cells. |
| `Loader.MergeKeepsEveryLeftRow` | app.py:36-37 | Whatever the right key, every row of a well-formed left frame survives the merge with its cells under their own labels. |
| `Loader.JoinRowsUnique` | app.py:36-37 | With a unique right key, the join yields exactly one row per left row, in the left order. |
| `Loader.MergePreservesWellFormed` | app.py:36-37 | The merged frame has distinct labels, and every row has exactly one cell per label. |
| `Loader.MergeKeepsLeftRows` | app.py:36-37 | With a unique right key: one row per left row, in order, with the left cells under their bare labels. The matching right row supplies its cells under the (suffixed) right labels. A left row with no match gets missing cells there. |
| `Loader.FillNa` | app.py:41-45 | `fillna` from another column: a missing cell takes the other column's cell in the same row, and a present cell is kept. Other columns are unchanged. It is a KeyError when either column is absent. |
| `Loader.Backfill` | app.py:40-45 | The guarded fill: it happens only when the frame has the suffixed source column. |
| `Loader.Complete` | app.py:40-45 | The three guarded backfills succeed exactly when each suffixed column present has its target column beside it. They keep the labels and the row count. |
| `Loader.RedundantColumns` | app.py:48 | Exactly the labels ending in `_veh` or `_route`. |
| `Loader.DropColumns` | app.py:49 | `drop(errors='ignore')`: the listed labels leave the frame, and every other label and cell stays. |
| `Loader.JoinTrips` | app.py:36-49 | The joined trips frame has no label ending in `_veh` or `_route`. |
| `Loader.Load` | app.py:12-51 | Any missing file gives a pair of empty frames. A successful load leaves no suffixed label. |
| `LoadData.DataFrame.Rename` | app.py:23-24 | The in-place rename leaves the frame equal to `RenameColumn` of its old value. On failure the frame is unchanged. |
| `LoadData.DataFrame.ToDatetimeColumn` | app.py:33 | The in-place conversion leaves the frame equal to `CoerceColumn` of its old value. |
| `LoadData.DataFrame.FillNaFrom` | app.py:41 | The in-place fill leaves the frame equal to `FillNa` of its old value. On failure the frame is unchanged. |
| `LoadData.DataFrame.Drop` | app.py:49 | The in-place drop leaves the frame equal to `DropColumns` of its old value. |
| `LoadData.NormalizeFrames` | app.py:22-33 | The two renames, then the loop over (frame, column) pairs. The loop converts each listed frame's column when it exists and leaves the routes frame alone. The result is the functional `Normalize`. |
| `LoadData.CompleteFrame` | app.py:39-45 | The three guarded in-place backfills equal `Complete`. |
| `LoadData.LoadData` | app.py:12-51 | The imperative loader returns exactly `Loader.Load` of its inputs. |
| `LoaderFacts.CompleteCells` | app.py:39-45 | Each of `vehicle_type`, `terrain` and `route_distance_km` keeps a present cell. A missing cell takes its suffixed twin when the frame has that twin. Nothing else changes. |
| `LoaderFacts.MergedCells` | app.py:36-37 | Across both merges, every trip row survives once and in order, with its own cells. |
| `LoaderFacts.JoinTripsKeepsTrips` | app.py:35-49 | With unique vehicle and route ids, the loader returns one row per trip, in order. Every trip label that does not end in a suffix survives. Each cell equals the trip's own, except a missing cell of one of the three backfilled attributes. |
| `LoaderFacts.JoinTripsVehicleType` | app.py:36-41 | A trip without a vehicle type gets the type of the vehicle with its id. With no such vehicle it stays missing. |
| `LoaderFacts.JoinTripsRouteAttribute` | app.py:37-45 | A trip without a terrain or route distance gets its route's. With no such route it stays missing. |
| `LoaderFacts.VehicleTwin` | app.py:36-40 | After the two merges, a label ending in `_veh` exists only beside the label it was made from. |
| `LoaderFacts.RouteTwin` | app.py:36-45 | After the two merges, a label ending in `_route` exists only beside the label it was made from. |
| `LoaderFacts.TwinsHaveAttributes` | app.py:40-45 | Each suffixed twin a backfill reads exists only when the attribute it fills exists, so no backfill raises a KeyError. |
| `LoaderFacts.JoinTripsSucceeds` | app.py:35-49 | The join succeeds when the trips frame holds both keys, each parent holds its own key, and no input label already ends in `_veh` or `_route`. |
| `LoaderFacts.LoadSucceeds` | app.py:12-51 | Under the same conditions, and with renames that collide with no existing label, `load_data` returns its two frames and not an error. |
| `LoaderFacts.RenameKeepsLabel` | app.py:23-24 | A rename to an unsuffixed label keeps the frame free of suffixed labels and keeps every other label. |
| `LoaderFacts.RenameKeepsDistinct` | app.py:23-24 | Renaming to a free label keeps the labels distinct. |
| `LoaderFacts.NormalizeKeepsKeys` | app.py:22-33 | Renaming and date coercion keep the vehicle and route ids unique. Only the date column of the trips and price frames changes. |
| `LoaderFacts.LoadKeepsEveryTrip` | app.py:12-51 | End to end, with unique vehicle and route ids: one output row per trip, in order. The trip's cells are kept, its date is converted, and the price frame comes back with its dates converted. |
| `Dashboard.Mean` | app.py:125 | A mean is NaN (None) exactly for no values. Otherwise the mean times the count is the sum. |
| `Dashboard.SumAppend` | app.py:123-124 | The sum of two concatenated lists is the sum of their sums. |
| `Dashboard.MeanBounds` | app.py:125 | A mean lies between the least and greatest values averaged. |
| `Dashboard.Values` | app.py:123-125 | The numbers of a column: every number cell of the column is among them, and each of them is some row's number cell. |
| `Dashboard.Numbers` | app.py:123-125 | Reading a column is a KeyError when it is absent and a type error when a cell is neither a number nor missing. Otherwise it gives the present numbers in row order. |
| `Dashboard.ColumnSum` | app.py:123-124 | `sum()` of a column is the sum of its present numbers. |
| `Dashboard.ColumnMean` | app.py:125 | `mean()` of a column is the mean of its present numbers. |
| `Dashboard.Overview` | app.py:123-125 | The overview succeeds exactly when each of the three columns reads as numbers. Then the frame has the three columns, and the figures are the cost total, the distance total and the mean efficiency. |
| `Dashboard.OverviewFailsOnEmpty` | app.py:123-125 | On the empty frame the overview fails with a KeyError on `fuel_cost_mxn`. |
| `Dashboard.GuardedOverview` | app.py:123-125 | A frame lacking one of the three columns shows "no data". Otherwise it shows exactly the overview's figures. |
| `Dashboard.MissingFileShowsNoData` | app.py:18-20 | With a file missing, the loader's empty frame makes the overview as written fail, while the guarded overview shows "no data". |
| `Dashboard.Keys` | app.py:169 | The group keys are distinct and present. Every present key of the column is among them. |
| `Dashboard.Insert` | app.py:169 | One insertion step of the sort adds exactly the given group to the list. |
| `Dashboard.SortDesc` | app.py:169 | `sort_values(ascending=False)` keeps exactly the same groups, as many as before. |
| `Dashboard.InsertSorted` | app.py:169 | Inserting into a descending list keeps it descending and adds exactly one element. |
| `Dashboard.SortDescCorrect` | app.py:169 | `sort_values(ascending=False)` gives a descending arrangement of the same groups, with NaN last. |
| `Dashboard.SortDescDistinct` | app.py:169 | Sorting keeps group keys distinct and adds no group. |
| `Dashboard.UnsortedGroups` | app.py:169 | Before sorting there is one group per present key, each holding the mean over that key's rows. |
| `Dashboard.GroupMeans` | app.py:169 | The group-by mean is a KeyError when the key column is absent. When the key column is present, it succeeds exactly when the value column reads as numbers: an absent value column is a KeyError and a non-numeric one a type error. |
| `Dashboard.GroupMeansCorrect` | app.py:180 | `groupby(key)[val].mean().sort_values(ascending=False)` is sorted descending, with every present key exactly once. Each key carries the mean of `val` over its rows. |
| `Dashboard.GroupMeansExample` | app.py:169 | Trips of type A at kpl 4 and type B at kpl 2 chart as A 4.0 first, then B 2.0. |
| `Ids.Decimal` | generate_data.py:11 | Decimal digits: at least one, all of them `0`..`9`. |
| `Ids.FormatId` | generate_data.py:11 | `f'V{i:03d}'`: the letter followed by digits only, at least four characters long. |
| `Ids.ParseFormatId` | generate_data.py:11 | Reading an identifier's number back gives the row number it was made from. |
| `Ids.FormatIdInjective` | generate_data.py:20 | Different row numbers give different identifiers. |
| `Ids.FormatIdLength` | generate_data.py:20 | Below 1000 an identifier is exactly four characters long. |
| `Ids.FormatIdExamples` | generate_data.py:11 | The ids include `V000`, `V009` and `R004`. |
| `Generator.MakeVehicle` | generate_data.py:10-15 | A vehicle has a known type, an age in 1..9 and a service date 30 to 364 days back. |
| `Generator.Fleet` | generate_data.py:10-15 | Ten vehicles, vehicle i with id `FormatId('V', i)`, each with a valid type and age. |
| `Generator.MakeRoute` | generate_data.py:19-23 | A route has a known terrain and a distance in 100..999. |
| `Generator.RouteTable` | generate_data.py:19-23 | Five routes, route i with id `FormatId('R', i)`. |
| `Generator.PriceTable` | generate_data.py:26-31 | 365 prices. Row i is dated i days before today and holds the price drawn for that day. |
| `Generator.IdsUnique` | generate_data.py:11-20 | Vehicle ids are pairwise distinct, and so are route ids. |
| `Generator.PriceDaysCovered` | generate_data.py:26-31 | The price table has exactly one row for each day of the year ending today and none for any other day. |
| `Generator.Efficiency` | generate_data.py:41-63 | The step-by-step `*=` adjustments compute the product of the base, the type, age, terrain and load factors, and the anomaly factor. |
| `Generator.KplBounds` | generate_data.py:42-63 | Over the drawn ranges, efficiency lies in [0.5576, 5.292), so it is positive. |
| `Generator.KplByVehicleType` | generate_data.py:45-48 | With the other inputs equal, Truck A beats Truck B, which beats Truck C. |
| `Generator.KplByTerrain` | generate_data.py:52-55 | With the other inputs equal, flat beats hilly, which beats mountainous. |
| `Generator.KplByAge` | generate_data.py:50 | With the other inputs equal, an older vehicle is less efficient. |
| `Generator.KplAnomalyLowers` | generate_data.py:62-63 | An anomaly strictly lowers the efficiency. |
| `Generator.FirstPrice` | generate_data.py:69 | It finds a price dated that day when one exists, and finds nothing exactly when no row has that date. |
| `Generator.PriceFor` | generate_data.py:69-73 | The lookup gives NaN (None) only for an empty price table. |
| `Generator.PriceForMatch` | generate_data.py:69-73 | When some row has the day, the price is that of the first such row. |
| `Generator.PriceForFallback` | generate_data.py:70-71 | When no row has the day, the price is the mean of all prices. |
| `Generator.PriceForBounds` | generate_data.py:69-73 | Either way the price lies within the range of the table's prices. |
| `Generator.TripDayPrice` | generate_data.py:35-73 | A trip on day offset d > 0 pays the price drawn for 365 − d days back. A trip on offset 0 pays the mean price. |
| `Generator.MakeTrip` | generate_data.py:36-92 | A trip copies its vehicle's and route's fields. Its efficiency is within bounds. Its distance is 0.8 to 1.2 times the route's. Fuel × kpl = distance, and cost = fuel × the day's price. |
| `Generator.AssembleTrip` | generate_data.py:37-92 | One pass of the trip loop, with the price lookup and its fallback written as in the source, builds exactly `MakeTrip`. |
| `Generator.GenerateData` | generate_data.py:5-95 | The three tables and exactly `num_records` trips, trip i built from draw i. |
| `Generator.TripLoop` | generate_data.py:36-92 | The `for` loop appends exactly `num_records` trips, trip i assembled from draw i over the given tables. |
| `Generator.GeneratedTripsReferenceTables` | generate_data.py:77-92 | Trip ids run 0..n−1. Every trip refers to a generated vehicle and route whose type, age, terrain and distance it carries. |
| `Generator.TripCostPositive` | generate_data.py:65-75 | With positive prices, every trip burns a positive amount of fuel at a positive cost. |

## Left out

- Reading the CSV files and writing them (app.py:14-17, generate_data.py:97-105): file I/O. A missing file is modelled as a `None` frame. Read errors other than a missing file are not modelled.
- The Streamlit page, tabs, buttons, charts, logo and messages (app.py:8, 19 and 56-205 apart from the aggregates): presentation.
- `@st.cache_data` (app.py:11): framework memoisation with no logic of its own.
- Random draws, `np.random.seed`, `datetime.now()` and the sine price curve (generate_data.py:6, 12-14, 21-29, 37-39, 42, 58, 62-65). Each drawn value is a parameter constrained to its range. `now()` is a single parameter `today`. The price curve is a price per day, assumed within 18..27 where a bound is needed.
- Time of day: trip dates, service dates and price dates are whole days. The source's separate `now()` calls can straddle midnight, and that is not modelled.
- `pd.to_datetime` parsing and the monthly and weekly `resample` buckets (app.py:33, 138, 152): library calendar semantics. Parsing is an abstract partial function, and the resampled charts are not modelled.
- IEEE-754 rounding: all quantities are exact reals.
- Text or timestamp cells in an arithmetic aggregate: pandas would concatenate strings or raise, and the model reports a `NotNumeric` failure instead.
- Duplicate labels: pandas accepts a rename or merge that yields two columns with one label. The model reports `DuplicateColumn` instead. `LoaderFacts.LoadSucceeds` states the input conditions under which this cannot happen.
- Loader.ToDatetime: `pd.to_datetime` infers a format for each column separately, but the model passes one abstract parser for all three date columns.
- Loader.JoinRowsKeepEach: for a right key that is not unique, it states that each left row survives with its cells, but not the order of the output rows.
- Dashboard.SortDescCorrect: pandas' default sort is not stable, so the order of groups with equal means is left unstated. The model lists ties in first-appearance order.
- LoaderFacts.JoinTripsVehicleType: the three attributes are fully populated only when the trip's vehicle and route exist. The code leaves them missing otherwise, and the model follows the code.

## Findings

| source | as written | input that shows it | evidently intended | confidence | as-written member | corrected member |
|---|---|---|---|---|---|---|
| app.py:123-125 | The overview reads `fuel_cost_mxn`, `actual_distance_km` and `kpl` without checking that the frame has them. | Any missing CSV file: `load_data` returns empty frames (app.py:18-20), and `df_trips['fuel_cost_mxn']` raises a KeyError. | Show "no data", as the other charts do behind their `in df.columns` guards. | not executed | `Dashboard.OverviewFailsOnEmpty` | `Dashboard.GuardedOverview` |
