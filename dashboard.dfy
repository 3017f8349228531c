/** The aggregates the dashboard shows (app.py:123-125, 169, 180): column
    sums and means that skip missing cells, and the mean of one column per
    value of another, listed from the largest mean down. */
module Dashboard {
  import opened Tables
  import Loader

  // ---------------------------------------------------------------------
  // Sums and means of one column
  // ---------------------------------------------------------------------

  predicate NumericOrMissing(c: Cell) {
    c.Number? || c.Missing?
  }

  /** The numbers of column `col`, in row order, missing cells skipped. */
  function Values(rows: seq<Row>, col: string): (xs: seq<real>)
    ensures |xs| <= |rows|
    ensures forall k | 0 <= k < |rows| && Get(rows[k], col).Number? :: Get(rows[k], col).x in xs
    ensures forall x | x in xs :: exists k | 0 <= k < |rows| :: Get(rows[k], col) == Number(x)
  {
    if rows == [] then []
    else
      var c := Get(rows[0], col);
      var rest := Values(rows[1..], col);
      assert forall k | 1 <= k < |rows| :: rows[k] == rows[1..][k - 1];
      (if c.Number? then [c.x] else []) + rest
  }

  /** `sum()` over the present values: 0 for none. */
  function Sum(xs: seq<real>): real {
    if xs == [] then 0.0 else xs[0] + Sum(xs[1..])
  }

  /** The mean of `xs`; None is the NaN pandas gives for no values. */
  function Mean(xs: seq<real>): (m: Option<real>)
    ensures m.None? <==> xs == []
    ensures m.Some? ==> m.value * (|xs| as real) == Sum(xs)
  {
    if xs == [] then None else Some(Sum(xs) / (|xs| as real))
  }

  lemma {:induction false} SumAppend(a: seq<real>, b: seq<real>)
    ensures Sum(a + b) == Sum(a) + Sum(b)
  {
    if a != [] {
      var ab := a + b;
      assert ab[0] == a[0] && ab[1..] == a[1..] + b;
      SumAppend(a[1..], b);
      assert Sum(ab) == ab[0] + Sum(ab[1..]);
    } else {
      assert a + b == b;
    }
  }

  lemma {:induction false} SumBounds(xs: seq<real>, lo: real, hi: real)
    requires forall i | 0 <= i < |xs| :: lo <= xs[i] <= hi
    ensures lo * (|xs| as real) <= Sum(xs) <= hi * (|xs| as real)
  {
    if xs != [] {
      SumBounds(xs[1..], lo, hi);
    }
  }

  /** A mean lies between the least and the greatest value averaged. */
  lemma MeanBounds(xs: seq<real>, lo: real, hi: real)
    requires xs != [] && forall i | 0 <= i < |xs| :: lo <= xs[i] <= hi
    ensures lo <= Mean(xs).value <= hi
  {
    SumBounds(xs, lo, hi);
    var n := |xs| as real;
    var m := Mean(xs).value;
    assert n > 0.0;
    assert m * n == Sum(xs);

  }

  /** `df[col]` as numbers: a KeyError when the frame has no such column, a
      type error when some cell is neither a number nor missing. */
  function Numbers(t: Table, col: string): (r: Result<seq<real>>)
    ensures col !in t.columns ==> r == Failure(MissingColumn(col))
    ensures col in t.columns ==>
      (r.Success? <==> forall k | 0 <= k < |t.rows| :: NumericOrMissing(Get(t.rows[k], col)))
    ensures r.Failure? && col in t.columns ==> r.error == NotNumeric(col)
    ensures r.Success? ==> r.value == Values(t.rows, col)
  {
    if col !in t.columns then Failure(MissingColumn(col))
    else if forall k | 0 <= k < |t.rows| :: NumericOrMissing(Get(t.rows[k], col)) then Success(Values(t.rows, col))
    else Failure(NotNumeric(col))
  }

  /** `df[col].sum()`: the sum of the present cells, 0 for none. */
  function ColumnSum(t: Table, col: string): (r: Result<real>)
    ensures r.Success? <==> Numbers(t, col).Success?
    ensures r.Success? ==> r.value == Sum(Values(t.rows, col))
  {
    var xs :- Numbers(t, col);
    Success(Sum(xs))
  }

  /** `df[col].mean()`: the mean of the present cells, NaN (None) for none. */
  function ColumnMean(t: Table, col: string): (r: Result<Option<real>>)
    ensures r.Success? <==> Numbers(t, col).Success?
    ensures r.Success? ==> r.value == Mean(Values(t.rows, col))
  {
    var xs :- Numbers(t, col);
    Success(Mean(xs))
  }

  /** The three headline figures of the overview page. */
  datatype Metrics = Metrics(totalFuelCost: real, totalDistance: real, meanKpl: Option<real>)

  /** app.py:123-125 as written: the three columns are read without checking
      that the frame has them. */
  function Overview(t: Table): (r: Result<Metrics>)
    ensures r.Success? ==> "fuel_cost_mxn" in t.columns && "actual_distance_km" in t.columns && "kpl" in t.columns
    ensures r.Success? ==> r.value.totalFuelCost == Sum(Values(t.rows, "fuel_cost_mxn"))
    ensures r.Success? ==> r.value.totalDistance == Sum(Values(t.rows, "actual_distance_km"))
    ensures r.Success? ==> r.value.meanKpl == Mean(Values(t.rows, "kpl"))
    ensures r.Success? <==>
      && Numbers(t, "fuel_cost_mxn").Success?
      && Numbers(t, "actual_distance_km").Success?
      && Numbers(t, "kpl").Success?
  {
    var cost :- ColumnSum(t, "fuel_cost_mxn");
    var distance :- ColumnSum(t, "actual_distance_km");
    var kpl :- ColumnMean(t, "kpl");
    Success(Metrics(cost, distance, kpl))
  }

  /** The empty frames the loader returns for a missing file make the
      overview fail with a KeyError instead of showing "no data". */
  lemma OverviewFailsOnEmpty()
    ensures Overview(Empty) == Failure(MissingColumn("fuel_cost_mxn"))
  {
  }

  /** The overview guarded the way the other pages guard their charts: a
      frame without the three columns yields "no data" (None). */
  function GuardedOverview(t: Table): (r: Result<Option<Metrics>>)
    ensures "fuel_cost_mxn" !in t.columns || "actual_distance_km" !in t.columns || "kpl" !in t.columns
      ==> r == Success(None)
    ensures "fuel_cost_mxn" in t.columns && "actual_distance_km" in t.columns && "kpl" in t.columns
      ==> (r.Success? <==> Overview(t).Success?) && (r.Success? ==> r.value == Some(Overview(t).value))
    ensures r.Failure? ==> r.error.NotNumeric?
  {
    if "fuel_cost_mxn" in t.columns && "actual_distance_km" in t.columns && "kpl" in t.columns then
      var m :- Overview(t);
      Success(Some(m))
    else Success(None)
  }

  /** When a source file is missing the loader hands back empty frames
      (app.py:18-20): the overview as written fails on them, the guarded one
      shows "no data". */
  lemma MissingFileShowsNoData(trips: Option<Table>, vehicles: Option<Table>, routes: Option<Table>,
                               prices: Option<Table>, parse: Cell -> Option<int>)
    requires trips.None? || vehicles.None? || routes.None? || prices.None?
    ensures var loaded := Loader.Load(trips, vehicles, routes, prices, parse);
      && loaded.Success?
      && Overview(loaded.value.0) == Failure(MissingColumn("fuel_cost_mxn"))
      && GuardedOverview(loaded.value.0) == Success(None)
  {
    OverviewFailsOnEmpty();
  }

  // ---------------------------------------------------------------------
  // df.groupby(keyCol)[val].mean().sort_values(ascending=False)
  // ---------------------------------------------------------------------

  /** One bar of the chart: a key and the mean of the value column over the
      rows with that key (None when all of them are missing). */
  datatype Group = Group(key: Cell, mean: Option<real>)

  /** The rows whose `keyCol` cell is `key`. */
  function Select(rows: seq<Row>, keyCol: string, key: Cell): (s: seq<Row>)
    ensures forall r | r in s :: r in rows && Get(r, keyCol) == key
  {
    if rows == [] then []
    else (if Get(rows[0], keyCol) == key then [rows[0]] else []) + Select(rows[1..], keyCol, key)
  }

  /** The mean of `val` over the rows whose `keyCol` cell is `key`. */
  function GroupMean(rows: seq<Row>, keyCol: string, val: string, key: Cell): Option<real> {
    Mean(Values(Select(rows, keyCol, key), val))
  }

  /** The distinct present keys of column `keyCol`, in order of first appearance. */
  function Keys(rows: seq<Row>, keyCol: string): (ks: seq<Cell>)
    ensures forall i, j | 0 <= i < j < |ks| :: ks[i] != ks[j]
    ensures forall k | k in ks :: !k.Missing? && exists r | r in rows :: Get(r, keyCol) == k
    ensures forall r | r in rows && !Get(r, keyCol).Missing? :: Get(r, keyCol) in ks
  {
    if rows == [] then []
    else
      var init := Keys(rows[..|rows| - 1], keyCol);
      var c := Get(rows[|rows| - 1], keyCol);
      assert forall r | r in rows :: r in rows[..|rows| - 1] || r == rows[|rows| - 1];
      if c.Missing? || c in init then init else init + [c]
  }

  /** Ranks `a` at or before `b` when listing from the largest mean down;
      NaN means come last, as sort_values puts them. */
  predicate AtLeast(a: Option<real>, b: Option<real>) {
    match (a, b)
    case (_, None) => true
    case (None, Some(_)) => false
    case (Some(x), Some(y)) => x >= y
  }

  ghost predicate SortedDesc(gs: seq<Group>) {
    forall i, j | 0 <= i < j < |gs| :: AtLeast(gs[i].mean, gs[j].mean)
  }

  function Insert(g: Group, gs: seq<Group>): (r: seq<Group>)
    ensures |r| == |gs| + 1 && multiset(r) == multiset(gs) + multiset{g}
  {
    if gs == [] then [g]
    else if AtLeast(g.mean, gs[0].mean) then [g] + gs
    else
      assert gs == [gs[0]] + gs[1..];
      [gs[0]] + Insert(g, gs[1..])
  }

  /** A stable insertion sort from the largest mean down. */
  function SortDesc(gs: seq<Group>): (r: seq<Group>)
    ensures |r| == |gs| && multiset(r) == multiset(gs)
  {
    if gs == [] then []
    else
      assert gs == [gs[0]] + gs[1..];
      Insert(gs[0], SortDesc(gs[1..]))
  }

  /** No two groups share a key. */
  ghost predicate DistinctKeys(gs: seq<Group>) {
    forall i, j | 0 <= i < j < |gs| :: gs[i].key != gs[j].key
  }

  lemma {:induction false} InsertSorted(g: Group, gs: seq<Group>)
    requires SortedDesc(gs)
    ensures SortedDesc(Insert(g, gs))
    ensures multiset(Insert(g, gs)) == multiset(gs) + multiset{g}
  {
    if gs != [] && !AtLeast(g.mean, gs[0].mean) {
      InsertSorted(g, gs[1..]);
      var rest := Insert(g, gs[1..]);
      assert gs == [gs[0]] + gs[1..];
      forall x | x in rest ensures AtLeast(gs[0].mean, x.mean) {
        assert x in multiset(rest);
        if x != g {
          assert x in gs[1..];
        }
      }
    }
  }

  lemma {:induction false} InsertDistinct(g: Group, gs: seq<Group>)
    requires DistinctKeys(gs) && forall x | x in gs :: x.key != g.key
    ensures DistinctKeys(Insert(g, gs))
    ensures forall x | x in Insert(g, gs) :: x == g || x in gs
  {
    if gs != [] && !AtLeast(g.mean, gs[0].mean) {
      InsertDistinct(g, gs[1..]);
      var rest := Insert(g, gs[1..]);
      forall x | x in rest ensures x.key != gs[0].key {
        if x != g {
          var j :| 0 <= j < |gs[1..]| && gs[1..][j] == x;
          assert gs[j + 1] == x;
        }
      }
      assert Insert(g, gs) == [gs[0]] + rest;
    }
  }

  /** The sort yields a descending arrangement; `SortDesc` itself keeps
      exactly the same groups. */
  lemma {:induction false} SortDescCorrect(gs: seq<Group>)
    ensures SortedDesc(SortDesc(gs))
  {
    if gs != [] {
      SortDescCorrect(gs[1..]);
      InsertSorted(gs[0], SortDesc(gs[1..]));
    }
  }

  /** Sorting keeps the keys distinct. */
  lemma {:induction false} SortDescDistinct(gs: seq<Group>)
    requires DistinctKeys(gs)
    ensures DistinctKeys(SortDesc(gs))
    ensures forall x | x in SortDesc(gs) :: x in gs
  {
    if gs != [] {
      var tl := gs[1..];
      SortDescDistinct(tl);
      forall x | x in SortDesc(tl) ensures x.key != gs[0].key {
        var j :| 0 <= j < |tl| && tl[j] == x;
        assert gs[j + 1] == x;
      }
      InsertDistinct(gs[0], SortDesc(tl));
    }
  }

  function Unsorted(rows: seq<Row>, keyCol: string, val: string): seq<Group> {
    var ks := Keys(rows, keyCol);
    seq(|ks|, i requires 0 <= i < |ks| => Group(ks[i], GroupMean(rows, keyCol, val, ks[i])))
  }

  /** `df.groupby(keyCol)[val].mean().sort_values(ascending=False)` */
  function GroupMeans(t: Table, keyCol: string, val: string): (r: Result<seq<Group>>)
    ensures keyCol !in t.columns ==> r == Failure(MissingColumn(keyCol))
    ensures r.Failure? ==> keyCol !in t.columns || Numbers(t, val).Failure?
    ensures keyCol in t.columns ==> (r.Success? <==> Numbers(t, val).Success?)
    ensures keyCol in t.columns && val !in t.columns ==> r == Failure(MissingColumn(val))
    ensures keyCol in t.columns && val in t.columns && r.Failure? ==> r.error == NotNumeric(val)
  {
    if keyCol !in t.columns then Failure(MissingColumn(keyCol))
    else
      var _ :- Numbers(t, val);
      Success(SortDesc(Unsorted(t.rows, keyCol, val)))
  }

  /** Before sorting: one group per present key, in order of first appearance. */
  lemma UnsortedGroups(rows: seq<Row>, keyCol: string, val: string)
    ensures var u := Unsorted(rows, keyCol, val);
      && DistinctKeys(u)
      && (forall g | g in u ::
            && g.mean == GroupMean(rows, keyCol, val, g.key)
            && !g.key.Missing?
            && exists r | r in rows :: Get(r, keyCol) == g.key)
      && (forall r | r in rows && !Get(r, keyCol).Missing? ::
            exists g | g in u :: g.key == Get(r, keyCol))
  {
    var u := Unsorted(rows, keyCol, val);
    var ks := Keys(rows, keyCol);
    forall r | r in rows && !Get(r, keyCol).Missing?
      ensures exists g | g in u :: g.key == Get(r, keyCol)
    {
      var i :| 0 <= i < |ks| && ks[i] == Get(r, keyCol);
      assert u[i].key == ks[i];
    }
  }

  /** The chart lists every present key exactly once, each with the mean of
      the value column over that key's rows, from the largest mean down. */
  lemma GroupMeansCorrect(t: Table, keyCol: string, val: string)
    requires GroupMeans(t, keyCol, val).Success?
    ensures var gs := GroupMeans(t, keyCol, val).value;
      && SortedDesc(gs)
      && DistinctKeys(gs)
      && (forall g | g in gs ::
            && g.mean == GroupMean(t.rows, keyCol, val, g.key)
            && !g.key.Missing?
            && exists r | r in t.rows :: Get(r, keyCol) == g.key)
      && (forall r | r in t.rows && !Get(r, keyCol).Missing? ::
            exists g | g in gs :: g.key == Get(r, keyCol))
  {
    var u := Unsorted(t.rows, keyCol, val);
    var gs := SortDesc(u);
    assert GroupMeans(t, keyCol, val).value == gs;
    UnsortedGroups(t.rows, keyCol, val);
    SortDescCorrect(u);
    SortDescDistinct(u);
    forall r | r in t.rows && !Get(r, keyCol).Missing?
      ensures exists g | g in gs :: g.key == Get(r, keyCol)
    {
      var g :| g in u && g.key == Get(r, keyCol);
      assert g in multiset(gs);
    }
  }

  // The example of a fleet with two vehicle types, A reporting kpl 4 and B
  // reporting kpl 2, over the trips B, A, A.
  const TripA: Row := map["vehicle_type" := Text("A"), "kpl" := Number(4.0)]
  const TripB: Row := map["vehicle_type" := Text("B"), "kpl" := Number(2.0)]

  lemma ExampleKeys()
    ensures Keys([TripB, TripA, TripA], "vehicle_type") == [Text("B"), Text("A")]
  {
    var rows := [TripB, TripA, TripA];
    assert Get(TripA, "vehicle_type") == Text("A") && Get(TripB, "vehicle_type") == Text("B");
    assert rows[..2] == [TripB, TripA] && [TripB, TripA][..1] == [TripB] && [TripB][..0] == [];
    assert Keys([TripB], "vehicle_type") == [Text("B")];
    assert Keys([TripB, TripA], "vehicle_type") == [Text("B"), Text("A")];
  }

  lemma ExampleMeans()
    ensures GroupMean([TripB, TripA, TripA], "vehicle_type", "kpl", Text("A")) == Some(4.0)
    ensures GroupMean([TripB, TripA, TripA], "vehicle_type", "kpl", Text("B")) == Some(2.0)
  {
    var rows := [TripB, TripA, TripA];
    assert Get(TripA, "vehicle_type") == Text("A") && Get(TripB, "vehicle_type") == Text("B");
    assert Get(TripA, "kpl") == Number(4.0) && Get(TripB, "kpl") == Number(2.0);
    assert rows[1..] == [TripA, TripA] && [TripA, TripA][1..] == [TripA] && [TripA][1..] == [];
    assert Select([TripA], "vehicle_type", Text("A")) == [TripA];
    assert Select(rows, "vehicle_type", Text("A")) == [TripA, TripA];
    assert Select([TripA], "vehicle_type", Text("B")) == [];
    assert Select(rows, "vehicle_type", Text("B")) == [TripB];
    assert Values([TripA], "kpl") == [4.0];
    assert Values([TripA, TripA], "kpl") == [4.0, 4.0];
    assert Values([TripB], "kpl") == [2.0];
    assert [4.0, 4.0][1..] == [4.0] && [4.0][1..] == [] && [2.0][1..] == [];
    assert Sum([4.0, 4.0]) == 8.0 && Sum([2.0]) == 2.0;
  }

  lemma ExampleUnsorted()
    ensures Unsorted([TripB, TripA, TripA], "vehicle_type", "kpl")
      == [Group(Text("B"), Some(2.0)), Group(Text("A"), Some(4.0))]
  {
    ExampleKeys();
    ExampleMeans();
  }

  lemma ExampleSorted()
    ensures SortDesc([Group(Text("B"), Some(2.0)), Group(Text("A"), Some(4.0))])
      == [Group(Text("A"), Some(4.0)), Group(Text("B"), Some(2.0))]
  {
    var u := [Group(Text("B"), Some(2.0)), Group(Text("A"), Some(4.0))];
    assert u[1..] == [Group(Text("A"), Some(4.0))];
  }

  /** The example groups to A at 4.0 first and B at 2.0 second. */
  lemma GroupMeansExample()
    ensures GroupMeans(Table(["vehicle_type", "kpl"], [TripB, TripA, TripA]), "vehicle_type", "kpl")
      == Success([Group(Text("A"), Some(4.0)), Group(Text("B"), Some(2.0))])
  {
    var t := Table(["vehicle_type", "kpl"], [TripB, TripA, TripA]);
    assert Get(TripA, "kpl") == Number(4.0) && Get(TripB, "kpl") == Number(2.0);
    assert Numbers(t, "kpl").Success?;
    ExampleUnsorted();
    ExampleSorted();
  }
}
