/** The data loader of the dashboard as functions over whole frames: each step
    of `load_data` (app.py) is one function here, and `Load` composes them in
    the order the source runs them. The imperative rendering, over mutable
    frames, is in module LoadData and is proved equal to `Load`. */
module Loader {
  import opened Tables

  // ---------------------------------------------------------------------
  // Renaming a column (DataFrame.rename(columns={from: to}))
  // ---------------------------------------------------------------------

  function ReplaceName(cs: seq<string>, from: string, to: string): seq<string> {
    seq(|cs|, i requires 0 <= i < |cs| => if cs[i] == from then to else cs[i])
  }

  function RenameRow(row: Row, from: string, to: string): Row {
    (row - {from})[to := Get(row, from)]
  }

  /** Relabels column `from` as `to`. A label the frame lacks is ignored, as
      pandas does; a new label that is already taken is a failure. */
  function RenameColumn(t: Table, from: string, to: string): (r: Result<Table>)
    ensures r.Failure? <==> from in t.columns && from != to && to in t.columns
    ensures r.Failure? ==> r.error == DuplicateColumn(to)
    ensures from !in t.columns ==> r == Success(t)
    ensures r.Success? ==> |r.value.rows| == |t.rows| && |r.value.columns| == |t.columns|
    ensures r.Success? ==> forall i | 0 <= i < |t.columns| ::
      r.value.columns[i] == if t.columns[i] == from then to else t.columns[i]
    ensures r.Success? && from in t.columns ==> forall k | 0 <= k < |t.rows| ::
      Get(r.value.rows[k], to) == Get(t.rows[k], from)
    ensures r.Success? ==> forall k, c | 0 <= k < |t.rows| && c != from && c != to ::
      Get(r.value.rows[k], c) == Get(t.rows[k], c)
  {
    if from !in t.columns || from == to then Success(t)
    else if to in t.columns then Failure(DuplicateColumn(to))
    else Success(Table(ReplaceName(t.columns, from, to),
                       seq(|t.rows|, k requires 0 <= k < |t.rows| => RenameRow(t.rows[k], from, to))))
  }

  lemma RenamePreservesWellFormed(t: Table, from: string, to: string)
    requires WellFormed(t) && RenameColumn(t, from, to).Success?
    ensures WellFormed(RenameColumn(t, from, to).value)
  {
    if from in t.columns && from != to {
      var r := RenameColumn(t, from, to).value;
      forall k | 0 <= k < |r.rows|
        ensures r.rows[k].Keys == Names(r.columns)
      {
        forall c ensures c in r.rows[k] <==> c in r.columns {
          if c in r.columns {
            var i :| 0 <= i < |r.columns| && r.columns[i] == c;
            assert t.columns[i] in t.rows[k];
          }
        }
      }
    }
  }

  // ---------------------------------------------------------------------
  // Date coercion (pd.to_datetime(..., errors='coerce'))
  // ---------------------------------------------------------------------

  /** Converts one cell to a timestamp. `parse` is the date parser, left
      abstract: it answers None for a value it cannot read. Missing stays
      missing, a timestamp stays as it is, and an unreadable value becomes
      missing instead of raising. */
  function ToDatetime(c: Cell, parse: Cell -> Option<int>): (r: Cell)
    ensures r.Missing? || r.Stamp?
    ensures r.Missing? <==> c.Missing? || (!c.Stamp? && parse(c).None?)
    ensures c.Stamp? ==> r == c
    ensures !c.Missing? && !c.Stamp? && parse(c).Some? ==> r == Stamp(parse(c).value)
  {
    match c
    case Missing => Missing
    case Stamp(_) => c
    case _ => match parse(c) { case Some(t) => Stamp(t) case None => Missing }
  }

  function CoerceRow(row: Row, col: string, parse: Cell -> Option<int>): Row {
    if col in row then row[col := ToDatetime(row[col], parse)] else row
  }

  /** The frame with column `col` converted to timestamps, when the frame has
      such a column; no other cell and no row changes. */
  function CoerceColumn(t: Table, col: string, parse: Cell -> Option<int>): (r: Table)
    ensures r.columns == t.columns && |r.rows| == |t.rows|
    ensures col !in t.columns ==> r == t
    ensures col in t.columns ==> forall k | 0 <= k < |t.rows| ::
      Get(r.rows[k], col) == ToDatetime(Get(t.rows[k], col), parse)
    ensures forall k, c | 0 <= k < |t.rows| && c != col :: Get(r.rows[k], c) == Get(t.rows[k], c)
    ensures forall k | 0 <= k < |t.rows| :: r.rows[k].Keys == t.rows[k].Keys
  {
    if col !in t.columns then t
    else Table(t.columns, seq(|t.rows|, k requires 0 <= k < |t.rows| => CoerceRow(t.rows[k], col, parse)))
  }

  // ---------------------------------------------------------------------
  // Left merge with suffixes (pd.merge(l, r, on=on, how='left', suffixes=('', suffix)))
  // ---------------------------------------------------------------------

  /** `cs` without the label `x`, order kept. */
  function Without(cs: seq<string>, x: string): (r: seq<string>)
    ensures forall c :: c in r <==> c in cs && c != x
    ensures Distinct(cs) ==> Distinct(r)
  {
    if cs == [] then []
    else
      var rest := Without(cs[1..], x);
      if cs[0] == x then rest
      else
        assert Distinct(cs) ==> cs[0] !in rest;
        [cs[0]] + rest
  }

  /** The label a right-hand column gets in the merged frame: a label the left
      frame also has takes the suffix, the left one keeps its bare name. */
  function RightName(c: string, left: seq<string>, suffix: string): string {
    if c in left then c + suffix else c
  }

  function RightNames(left: seq<string>, rcols: seq<string>, suffix: string): (ns: seq<string>)
    ensures |ns| == |rcols|
  {
    seq(|rcols|, j requires 0 <= j < |rcols| => RightName(rcols[j], left, suffix))
  }

  /** The first suffixed label that would coincide with a label already in
      the merged frame, if any. */
  function FindClash(rcols: seq<string>, left: seq<string>, right: seq<string>, suffix: string): (r: Option<string>)
    ensures r.None? <==> forall c | c in rcols && c in left :: c + suffix !in left && c + suffix !in right
  {
    if rcols == [] then None
    else if rcols[0] in left && (rcols[0] + suffix in left || rcols[0] + suffix in right) then Some(rcols[0] + suffix)
    else FindClash(rcols[1..], left, right, suffix)
  }

  /** The rows of `rows` whose key column holds `key`, in order. A missing key
      matches a missing key, as in pandas. */
  function Matches(rows: seq<Row>, on: string, key: Cell): (ms: seq<Row>)
    ensures |ms| <= |rows|
    ensures forall m | m in ms :: m in rows && Get(m, on) == key
  {
    if rows == [] then []
    else
      var last := rows[|rows| - 1];
      Matches(rows[..|rows| - 1], on, key) + if Get(last, on) == key then [last] else []
  }

  function Pick(row: Row, cs: seq<string>): (vs: seq<Cell>)
    ensures |vs| == |cs|
  {
    seq(|cs|, j requires 0 <= j < |cs| => Get(row, cs[j]))
  }

  function Blank(n: nat): (vs: seq<Cell>)
    ensures |vs| == n
  {
    seq(n, _ => Missing)
  }

  /** The merged rows produced by one left row: one per matching right row,
      or a single row padded with missing cells when nothing matches. */
  function JoinRow(lrow: Row, rrows: seq<Row>, on: string, rcols: seq<string>, names: seq<string>): (out: seq<Row>)
    requires |names| == |rcols|
    ensures |out| == if Matches(rrows, on, Get(lrow, on)) == [] then 1 else |Matches(rrows, on, Get(lrow, on))|
  {
    var ms := Matches(rrows, on, Get(lrow, on));
    if ms == [] then [lrow + Zip(names, Blank(|rcols|))]
    else seq(|ms|, m requires 0 <= m < |ms| => lrow + Zip(names, Pick(ms[m], rcols)))
  }

  /** The rows of a left join, left row by left row. A left join never
      loses a left row. */
  function JoinRows(lrows: seq<Row>, rrows: seq<Row>, on: string, rcols: seq<string>, names: seq<string>): (out: seq<Row>)
    requires |names| == |rcols|
    ensures |out| >= |lrows|
  {
    if lrows == [] then []
    else JoinRows(lrows[..|lrows| - 1], rrows, on, rcols, names)
         + JoinRow(lrows[|lrows| - 1], rrows, on, rcols, names)
  }

  /** A left outer join of `l` with `r` on column `on`. The merged columns are
      the left ones followed by the right ones other than the key; a right
      label the left frame also has is suffixed. */
  function Merge(l: Table, r: Table, on: string, suffix: string): (res: Result<Table>)
    ensures on !in l.columns || on !in r.columns ==> res == Failure(MissingColumn(on))
    ensures res.Success? ==> l.columns <= res.value.columns
    ensures res.Success? ==> forall c | c in r.columns && c != on ::
      (c in l.columns ==> c + suffix in res.value.columns) && (c !in l.columns ==> c in res.value.columns)
  {
    if on !in l.columns || on !in r.columns then Failure(MissingColumn(on))
    else
      var rcols := Without(r.columns, on);
      var names := RightNames(l.columns, rcols, suffix);
      match FindClash(rcols, l.columns, r.columns, suffix)
      case Some(n) => Failure(DuplicateColumn(n))
      case None =>
        assert forall c | c in r.columns && c != on :: RightName(c, l.columns, suffix) in names by {
          forall c | c in r.columns && c != on ensures RightName(c, l.columns, suffix) in names {
            var j :| 0 <= j < |rcols| && rcols[j] == c;
            assert names[j] == RightName(c, l.columns, suffix);
          }
        }
        Success(Table(l.columns + names, JoinRows(l.rows, r.rows, on, rcols, names)))
  }

  /** The right-hand key is unique: no two rows of `rows` share a key. */
  ghost predicate UniqueKey(rows: seq<Row>, on: string) {
    forall i, j | 0 <= i < j < |rows| :: Get(rows[i], on) != Get(rows[j], on)
  }

  /** Some row of `rows` has `key` in its key column. */
  ghost predicate HasMatch(rows: seq<Row>, on: string, key: Cell) {
    exists k | 0 <= k < |rows| :: Get(rows[k], on) == key
  }

  lemma {:induction false} MatchesFound(rows: seq<Row>, on: string, key: Cell, k: nat)
    requires k < |rows| && Get(rows[k], on) == key
    ensures rows[k] in Matches(rows, on, key)
  {
    if k < |rows| - 1 {
      MatchesFound(rows[..|rows| - 1], on, key, k);
    }
  }

  lemma MatchesNone(rows: seq<Row>, on: string, key: Cell)
    requires !HasMatch(rows, on, key)
    ensures Matches(rows, on, key) == []
  {
  }

  /** With a unique key, the rows matching the key of row k are exactly row k. */
  lemma {:induction false} MatchesUnique(rows: seq<Row>, on: string, key: Cell)
    requires UniqueKey(rows, on)
    ensures |Matches(rows, on, key)| <= 1
    ensures forall k | 0 <= k < |rows| && Get(rows[k], on) == key :: Matches(rows, on, key) == [rows[k]]
  {
    if rows != [] {
      var n := |rows| - 1;
      var init := rows[..n];
      assert Matches(rows, on, key) == Matches(init, on, key) + if Get(rows[n], on) == key then [rows[n]] else [];
      if Get(rows[n], on) == key {
        assert !HasMatch(init, on, key) by {
          forall i | 0 <= i < |init| ensures Get(init[i], on) != key {
            assert init[i] == rows[i];
          }
        }
        MatchesNone(init, on, key);
        assert Matches(rows, on, key) == [rows[n]];
      } else {
        assert UniqueKey(init, on) by {
          forall i, j | 0 <= i < j < |init| ensures Get(init[i], on) != Get(init[j], on) {
            assert init[i] == rows[i] && init[j] == rows[j];
          }
        }
        MatchesUnique(init, on, key);
        forall k | 0 <= k < |rows| && Get(rows[k], on) == key
          ensures Matches(rows, on, key) == [rows[k]]
        {
          assert k < n && init[k] == rows[k];
        }
      }
    }
  }

  /** Some row of `out` carries every cell of `lrow`. */
  ghost predicate Carried(out: seq<Row>, lrow: Row) {
    exists j | 0 <= j < |out| :: forall c | c in lrow :: Get(out[j], c) == lrow[c]
  }

  /** Whatever the right key, every left row reappears in the join with all
      of its cells, provided no right-hand name hides a left label. */
  lemma {:induction false} JoinRowsKeepEach(lrows: seq<Row>, rrows: seq<Row>, on: string, rcols: seq<string>, names: seq<string>)
    requires |names| == |rcols|
    requires forall k | 0 <= k < |lrows| :: forall c | c in lrows[k] :: c !in names
    ensures forall i | 0 <= i < |lrows| :: Carried(JoinRows(lrows, rrows, on, rcols, names), lrows[i])
  {
    if lrows != [] {
      var n := |lrows| - 1;
      var init := lrows[..n];
      var a := JoinRows(init, rrows, on, rcols, names);
      var b := JoinRow(lrows[n], rrows, on, rcols, names);
      assert JoinRows(lrows, rrows, on, rcols, names) == a + b;
      assert forall k | 0 <= k < |init| :: init[k] == lrows[k];
      JoinRowsKeepEach(init, rrows, on, rcols, names);
      forall i | 0 <= i < |lrows| ensures Carried(a + b, lrows[i]) {
        if i < n {
          assert Carried(a, init[i]);
          var j :| 0 <= j < |a| && forall c | c in init[i] :: Get(a[j], c) == init[i][c];
          assert (a + b)[j] == a[j];
        } else {
          JoinRowHead(lrows[n], rrows, on, rcols, names);
          assert (a + b)[|a|] == b[0];
        }
      }
    }
  }

  /** The first row a left row yields carries all of its cells. */
  lemma JoinRowHead(lrow: Row, rrows: seq<Row>, on: string, rcols: seq<string>, names: seq<string>)
    requires |names| == |rcols|
    requires forall c | c in lrow :: c !in names
    ensures forall c | c in lrow :: Get(JoinRow(lrow, rrows, on, rcols, names)[0], c) == lrow[c]
  {
    var ms := Matches(rrows, on, Get(lrow, on));
    var z := if ms == [] then Zip(names, Blank(|rcols|)) else Zip(names, Pick(ms[0], rcols));
    assert JoinRow(lrow, rrows, on, rcols, names)[0] == lrow + z;
  }

  /** Whatever the right key, every row of the left frame survives a merge
      with all of its cells under their own labels. */
  lemma MergeKeepsEveryLeftRow(l: Table, r: Table, on: string, suffix: string)
    requires WellFormed(l) && Distinct(r.columns) && Merge(l, r, on, suffix).Success?
    ensures forall i | 0 <= i < |l.rows| :: Carried(Merge(l, r, on, suffix).value.rows, l.rows[i])
  {
    var rcols := Without(r.columns, on);
    var names := RightNames(l.columns, rcols, suffix);
    MergeShape(l, r, on, suffix);
    RightNamesFresh(l, r, on, suffix);
    forall k | 0 <= k < |l.rows| ensures forall c | c in l.rows[k] :: c !in names {
      assert l.rows[k].Keys == Names(l.columns);
    }
    JoinRowsKeepEach(l.rows, r.rows, on, rcols, names);
  }

  /** With a unique right key, a left join yields exactly one row per left
      row, in the left order. */
  lemma {:induction false} JoinRowsUnique(lrows: seq<Row>, rrows: seq<Row>, on: string, rcols: seq<string>, names: seq<string>)
    requires |names| == |rcols| && UniqueKey(rrows, on)
    ensures |JoinRows(lrows, rrows, on, rcols, names)| == |lrows|
    ensures forall i | 0 <= i < |lrows| ::
      JoinRows(lrows, rrows, on, rcols, names)[i] == JoinRow(lrows[i], rrows, on, rcols, names)[0]
  {
    if lrows != [] {
      var n := |lrows| - 1;
      var init := lrows[..n];
      var a := JoinRows(init, rrows, on, rcols, names);
      var b := JoinRow(lrows[n], rrows, on, rcols, names);
      assert JoinRows(lrows, rrows, on, rcols, names) == a + b;
      JoinRowsUnique(init, rrows, on, rcols, names);
      JoinRowSingle(lrows[n], rrows, on, rcols, names);
      forall i | 0 <= i < |lrows| ensures (a + b)[i] == JoinRow(lrows[i], rrows, on, rcols, names)[0] {
        if i < n {
          assert (a + b)[i] == a[i];
          assert init[i] == lrows[i];
        } else {
          assert i == |a| && lrows[i] == lrows[n];
        }
      }
    }
  }

  /** With a unique right key, one left row yields exactly one merged row. */
  lemma JoinRowSingle(lrow: Row, rrows: seq<Row>, on: string, rcols: seq<string>, names: seq<string>)
    requires |names| == |rcols| && UniqueKey(rrows, on)
    ensures |JoinRow(lrow, rrows, on, rcols, names)| == 1
  {
    MatchesUnique(rrows, on, Get(lrow, on));
  }

  /** Every merged row is a left row extended by one cell per right-hand name. */
  lemma {:induction false} JoinRowsKeys(lrows: seq<Row>, rrows: seq<Row>, on: string, rcols: seq<string>, names: seq<string>, keys: set<string>)
    requires |names| == |rcols|
    requires forall k | 0 <= k < |lrows| :: lrows[k].Keys == keys
    ensures forall row | row in JoinRows(lrows, rrows, on, rcols, names) :: row.Keys == keys + Names(names)
  {
    if lrows != [] {
      JoinRowsKeys(lrows[..|lrows| - 1], rrows, on, rcols, names, keys);
    }
  }

  lemma AppendCancel(a: string, b: string, s: string)
    requires a + s == b + s
    ensures a == b
  {
    assert a == (a + s)[..|a|];
    assert b == (b + s)[..|b|];
  }

  /** Without a clash, the right-hand names are distinct and none of them is
      a left label. */
  lemma RightNamesFresh(l: Table, r: Table, on: string, suffix: string)
    requires Distinct(r.columns)
    requires FindClash(Without(r.columns, on), l.columns, r.columns, suffix).None?
    ensures var names := RightNames(l.columns, Without(r.columns, on), suffix);
      Distinct(names) && forall c | c in l.columns :: c !in names
  {
    var rcols := Without(r.columns, on);
    var names := RightNames(l.columns, rcols, suffix);
    forall i, j | 0 <= i < j < |names| ensures names[i] != names[j] {
      if names[i] == names[j] && rcols[i] in l.columns && rcols[j] in l.columns {
        AppendCancel(rcols[i], rcols[j], suffix);
      }
    }
  }

  lemma MergePreservesWellFormed(l: Table, r: Table, on: string, suffix: string)
    requires WellFormed(l) && WellFormed(r) && Merge(l, r, on, suffix).Success?
    ensures WellFormed(Merge(l, r, on, suffix).value)
  {
    var m := Merge(l, r, on, suffix).value;
    var rcols := Without(r.columns, on);
    var names := RightNames(l.columns, rcols, suffix);
    RightNamesFresh(l, r, on, suffix);
    JoinRowsKeys(l.rows, r.rows, on, rcols, names, Names(l.columns));
    assert Names(m.columns) == Names(l.columns) + Names(names);
    forall k | 0 <= k < |m.rows| ensures m.rows[k].Keys == Names(m.columns) {
      assert m.rows[k] in m.rows;
    }
    forall i, j | 0 <= i < j < |m.columns| ensures m.columns[i] != m.columns[j] {
      if j >= |l.columns| && i < |l.columns| {
        assert m.columns[i] in l.columns;
        assert m.columns[j] == names[j - |l.columns|];
      }
    }
  }

  /** The cells of the one row a left row yields under a unique right key. */
  lemma JoinedRowCells(lrow: Row, rrows: seq<Row>, on: string, rcols: seq<string>, names: seq<string>, j: nat)
    requires |names| == |rcols| && Distinct(names) && UniqueKey(rrows, on) && j < |rcols|
    ensures forall c | c !in names :: Get(JoinRow(lrow, rrows, on, rcols, names)[0], c) == Get(lrow, c)
    ensures forall k | 0 <= k < |rrows| && Get(rrows[k], on) == Get(lrow, on) ::
      Get(JoinRow(lrow, rrows, on, rcols, names)[0], names[j]) == Get(rrows[k], rcols[j])
    ensures !HasMatch(rrows, on, Get(lrow, on)) ==> Get(JoinRow(lrow, rrows, on, rcols, names)[0], names[j]) == Missing
  {
    var key := Get(lrow, on);
    MatchesUnique(rrows, on, key);
    if HasMatch(rrows, on, key) {
      var k :| 0 <= k < |rrows| && Get(rrows[k], on) == key;
      assert JoinRow(lrow, rrows, on, rcols, names)[0] == lrow + Zip(names, Pick(rrows[k], rcols));
      ZipAt(names, Pick(rrows[k], rcols), j);
    } else {
      MatchesNone(rrows, on, key);
      assert JoinRow(lrow, rrows, on, rcols, names)[0] == lrow + Zip(names, Blank(|rcols|));
      ZipAt(names, Blank(|rcols|), j);
    }
  }

  lemma MergeShape(l: Table, r: Table, on: string, suffix: string)
    requires Merge(l, r, on, suffix).Success?
    ensures on in l.columns && on in r.columns
    ensures FindClash(Without(r.columns, on), l.columns, r.columns, suffix).None?
    ensures var rcols := Without(r.columns, on);
            var names := RightNames(l.columns, rcols, suffix);
            Merge(l, r, on, suffix).value == Table(l.columns + names, JoinRows(l.rows, r.rows, on, rcols, names))
  {
  }

  /** A merge succeeds exactly when both frames hold the key and no suffixed
      label would coincide with a label already present. */
  lemma MergeSucceeds(l: Table, r: Table, on: string, suffix: string)
    ensures Merge(l, r, on, suffix).Success? <==>
      && on in l.columns && on in r.columns
      && forall c | c in r.columns && c != on && c in l.columns :: c + suffix !in l.columns && c + suffix !in r.columns
  {
  }

  /** Every label of a merged frame is a left label, a right label, or a left
      label with the suffix appended. */
  lemma MergedLabel(l: Table, r: Table, on: string, suffix: string, x: string)
    requires Merge(l, r, on, suffix).Success? && x in Merge(l, r, on, suffix).value.columns
    ensures x in l.columns || x in r.columns || (EndsWith(x, suffix) && x[..|x| - |suffix|] in l.columns)
  {
    var rcols := Without(r.columns, on);
    var names := RightNames(l.columns, rcols, suffix);
    MergeShape(l, r, on, suffix);
    if x !in l.columns {
      var j :| 0 <= j < |names| && names[j] == x;
      if rcols[j] in l.columns {
        assert x == rcols[j] + suffix;
        assert x[|x| - |suffix|..] == suffix && x[..|x| - |suffix|] == rcols[j];
      }
    }
  }

  lemma MergeRightCells(l: Table, r: Table, on: string, suffix: string)
    requires Distinct(r.columns) && UniqueKey(r.rows, on) && Merge(l, r, on, suffix).Success?
    ensures |Merge(l, r, on, suffix).value.rows| == |l.rows|
    ensures forall i, c | 0 <= i < |l.rows| && c in r.columns && c != on ::
      && (forall k | 0 <= k < |r.rows| && Get(r.rows[k], on) == Get(l.rows[i], on) ::
            Get(Merge(l, r, on, suffix).value.rows[i], RightName(c, l.columns, suffix)) == Get(r.rows[k], c))
      && (!HasMatch(r.rows, on, Get(l.rows[i], on)) ==>
            Get(Merge(l, r, on, suffix).value.rows[i], RightName(c, l.columns, suffix)) == Missing)
  {
    var rcols := Without(r.columns, on);
    var names := RightNames(l.columns, rcols, suffix);
    var m := Merge(l, r, on, suffix).value;
    MergeShape(l, r, on, suffix);
    RightNamesFresh(l, r, on, suffix);
    JoinRowsUnique(l.rows, r.rows, on, rcols, names);
    forall i, c | 0 <= i < |l.rows| && c in r.columns && c != on
      ensures forall k | 0 <= k < |r.rows| && Get(r.rows[k], on) == Get(l.rows[i], on) ::
        Get(m.rows[i], RightName(c, l.columns, suffix)) == Get(r.rows[k], c)
      ensures !HasMatch(r.rows, on, Get(l.rows[i], on)) ==> Get(m.rows[i], RightName(c, l.columns, suffix)) == Missing
    {
      var j :| 0 <= j < |rcols| && rcols[j] == c;
      assert names[j] == RightName(c, l.columns, suffix);
      JoinedRowCells(l.rows[i], r.rows, on, rcols, names, j);
    }
  }

  lemma MergeLeftCells(l: Table, r: Table, on: string, suffix: string)
    requires Distinct(r.columns) && UniqueKey(r.rows, on) && Merge(l, r, on, suffix).Success?
    ensures |Merge(l, r, on, suffix).value.rows| == |l.rows|
    ensures forall i, c | 0 <= i < |l.rows| && c in l.columns ::
      Get(Merge(l, r, on, suffix).value.rows[i], c) == Get(l.rows[i], c)
  {
    var rcols := Without(r.columns, on);
    var names := RightNames(l.columns, rcols, suffix);
    var m := Merge(l, r, on, suffix).value;
    MergeShape(l, r, on, suffix);
    RightNamesFresh(l, r, on, suffix);
    JoinRowsUnique(l.rows, r.rows, on, rcols, names);
    forall i, c | 0 <= i < |l.rows| && c in l.columns
      ensures Get(m.rows[i], c) == Get(l.rows[i], c)
    {
      if |rcols| > 0 {
        JoinedRowCells(l.rows[i], r.rows, on, rcols, names, 0);
      } else {
        MatchesUnique(r.rows, on, Get(l.rows[i], on));
      }
    }
  }

  /** The left join of app.py:36-37: with a unique right key every left row
      comes out exactly once, in order; its own cells keep their bare labels
      and values; the right row with the same key supplies the other cells,
      under the suffixed label where the left frame has the same label; a left
      row with no partner gets missing cells there. */
  lemma MergeKeepsLeftRows(l: Table, r: Table, on: string, suffix: string)
    requires Distinct(r.columns) && UniqueKey(r.rows, on) && Merge(l, r, on, suffix).Success?
    ensures |Merge(l, r, on, suffix).value.rows| == |l.rows|
    ensures forall i, c | 0 <= i < |l.rows| && c in l.columns ::
      Get(Merge(l, r, on, suffix).value.rows[i], c) == Get(l.rows[i], c)
    ensures forall i, k, c | 0 <= i < |l.rows| && 0 <= k < |r.rows| && Get(r.rows[k], on) == Get(l.rows[i], on)
                             && c in r.columns && c != on ::
      Get(Merge(l, r, on, suffix).value.rows[i], RightName(c, l.columns, suffix)) == Get(r.rows[k], c)
    ensures forall i, c | 0 <= i < |l.rows| && !HasMatch(r.rows, on, Get(l.rows[i], on)) && c in r.columns && c != on ::
      Get(Merge(l, r, on, suffix).value.rows[i], RightName(c, l.columns, suffix)) == Missing
  {
    MergeLeftCells(l, r, on, suffix);
    MergeRightCells(l, r, on, suffix);
  }

  // ---------------------------------------------------------------------
  // Filling missing cells from another column (s.fillna(other))
  // ---------------------------------------------------------------------

  function FillRow(row: Row, col: string, src: string): Row {
    if Get(row, col).Missing? then row[col := Get(row, src)] else row
  }

  /** `df[col] = df[col].fillna(df[src])`: every missing cell of `col` takes
      the cell of `src` in the same row; present cells and other columns stay. */
  function FillNa(t: Table, col: string, src: string): (r: Result<Table>)
    ensures r.Failure? <==> col !in t.columns || src !in t.columns
    ensures col !in t.columns ==> r == Failure(MissingColumn(col))
    ensures col in t.columns && src !in t.columns ==> r == Failure(MissingColumn(src))
    ensures r.Success? ==> r.value.columns == t.columns && |r.value.rows| == |t.rows|
    ensures r.Success? ==> forall k | 0 <= k < |t.rows| ::
      Get(r.value.rows[k], col) == if Get(t.rows[k], col).Missing? then Get(t.rows[k], src) else Get(t.rows[k], col)
    ensures r.Success? ==> forall k, c | 0 <= k < |t.rows| && c != col ::
      Get(r.value.rows[k], c) == Get(t.rows[k], c)
  {
    if col !in t.columns then Failure(MissingColumn(col))
    else if src !in t.columns then Failure(MissingColumn(src))
    else Success(Table(t.columns, seq(|t.rows|, k requires 0 <= k < |t.rows| => FillRow(t.rows[k], col, src))))
  }

  /** The guarded backfill of load_data: fill `col` from `src` only when the
      frame has a column `src`. */
  function Backfill(t: Table, col: string, src: string): (r: Result<Table>)
    ensures src !in t.columns ==> r == Success(t)
    ensures src in t.columns ==> r == FillNa(t, col, src)
  {
    if src in t.columns then FillNa(t, col, src) else Success(t)
  }

  // ---------------------------------------------------------------------
  // Dropping the suffixed columns
  // ---------------------------------------------------------------------

  predicate EndsWith(s: string, suffix: string) {
    |suffix| <= |s| && s[|s| - |suffix|..] == suffix
  }

  /** A label left behind by one of the two merges. */
  predicate Redundant(c: string) {
    EndsWith(c, "_veh") || EndsWith(c, "_route")
  }

  /** The labels of `cs` that end in `_veh` or `_route`, in order. */
  function RedundantColumns(cs: seq<string>): (r: seq<string>)
    ensures forall c :: c in r <==> c in cs && Redundant(c)
  {
    if cs == [] then []
    else (if Redundant(cs[0]) then [cs[0]] else []) + RedundantColumns(cs[1..])
  }

  function Keep(cs: seq<string>, drop: seq<string>): (r: seq<string>)
    ensures forall c :: c in r <==> c in cs && c !in drop
    ensures Distinct(cs) ==> Distinct(r)
  {
    if cs == [] then []
    else
      var rest := Keep(cs[1..], drop);
      if cs[0] in drop then rest
      else
        assert Distinct(cs) ==> cs[0] !in rest;
        [cs[0]] + rest
  }

  function DropRow(row: Row, drop: seq<string>): Row {
    map c | c in row && c !in drop :: row[c]
  }

  /** `df.drop(columns=drop, errors='ignore')`: the listed labels leave the
      frame (those it lacks are ignored); every other column and every row
      stays as it was. */
  function DropColumns(t: Table, drop: seq<string>): (r: Table)
    ensures forall c :: c in r.columns <==> c in t.columns && c !in drop
    ensures |r.rows| == |t.rows|
    ensures forall k, c | 0 <= k < |t.rows| && c !in drop :: Get(r.rows[k], c) == Get(t.rows[k], c)
    ensures forall k, c | 0 <= k < |t.rows| && c in drop :: c !in r.rows[k]
  {
    Table(Keep(t.columns, drop), seq(|t.rows|, k requires 0 <= k < |t.rows| => DropRow(t.rows[k], drop)))
  }

  // ---------------------------------------------------------------------
  // The whole loader
  // ---------------------------------------------------------------------

  /** The four frames the loader reads. */
  datatype Sources = Sources(trips: Table, vehicles: Table, routes: Table, prices: Table)

  /** Renaming (app.py:23-24) and date coercion (app.py:27-33). */
  function Normalize(s: Sources, parse: Cell -> Option<int>): (r: Result<Sources>)
    ensures r.Failure? <==>
      || ("age_years" in s.vehicles.columns && "vehicle_age_years" in s.vehicles.columns)
      || ("distance_km" in s.routes.columns && "route_distance_km" in s.routes.columns)
    ensures r.Success? ==>
      && r.value.trips.columns == s.trips.columns && r.value.prices.columns == s.prices.columns
      && |r.value.trips.rows| == |s.trips.rows| && |r.value.vehicles.rows| == |s.vehicles.rows|
      && |r.value.routes.rows| == |s.routes.rows| && |r.value.prices.rows| == |s.prices.rows|
    ensures r.Success? && "age_years" in s.vehicles.columns ==> "vehicle_age_years" in r.value.vehicles.columns
    ensures r.Success? && "distance_km" in s.routes.columns ==> "route_distance_km" in r.value.routes.columns
  {
    var v :- RenameColumn(s.vehicles, "age_years", "vehicle_age_years");
    var rt :- RenameColumn(s.routes, "distance_km", "route_distance_km");
    Success(Sources(CoerceColumn(s.trips, "date", parse), CoerceColumn(v, "last_maintenance", parse),
                    rt, CoerceColumn(s.prices, "date", parse)))
  }

  /** The three guarded backfills of app.py:40-45. */
  function Complete(t: Table): (r: Result<Table>)
    ensures r.Success? <==>
      && ("vehicle_type_veh" in t.columns ==> "vehicle_type" in t.columns)
      && ("terrain_route" in t.columns ==> "terrain" in t.columns)
      && ("route_distance_km_route" in t.columns ==> "route_distance_km" in t.columns)
    ensures r.Success? ==> r.value.columns == t.columns && |r.value.rows| == |t.rows|
  {
    var t3 :- Backfill(t, "vehicle_type", "vehicle_type_veh");
    var t4 :- Backfill(t3, "terrain", "terrain_route");
    Backfill(t4, "route_distance_km", "route_distance_km_route")
  }

  /** The two merges (app.py:36-37), the backfills and the drop of the
      suffixed columns (app.py:48-49). */
  function JoinTrips(s: Sources): (r: Result<Table>)
    ensures r.Success? ==> forall c | c in r.value.columns :: !Redundant(c)
  {
    var t1 :- Merge(s.trips, s.vehicles, "vehicle_id", "_veh");
    var t2 :- Merge(t1, s.routes, "route_id", "_route");
    var t5 :- Complete(t2);
    Success(DropColumns(t5, RedundantColumns(t5.columns)))
  }

  /** `load_data`: the four source frames, each None when its file is
      missing, become the joined trips frame and the fuel price frame. */
  function Load(trips: Option<Table>, vehicles: Option<Table>, routes: Option<Table>, prices: Option<Table>,
                parse: Cell -> Option<int>): (r: Result<(Table, Table)>)
    ensures trips.None? || vehicles.None? || routes.None? || prices.None? ==> r == Success((Empty, Empty))
    ensures r.Success? ==> forall c | c in r.value.0.columns :: !Redundant(c)
  {
    if trips.None? || vehicles.None? || routes.None? || prices.None? then Success((Empty, Empty))
    else
      var s :- Normalize(Sources(trips.value, vehicles.value, routes.value, prices.value), parse);
      var joined :- JoinTrips(s);
      Success((joined, s.prices))
  }
}
