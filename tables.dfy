/** The tabular vocabulary shared by the loader, the dashboard aggregates and
    the generator: a data frame is a list of column names and a list of rows,
    each row mapping a column name to a cell. */
module Tables {

  datatype Option<+T> = None | Some(value: T)

  /** One cell of a data frame. `Missing` stands for every "no value" marker of
      the frames: NaN, NaT and None. A timestamp is an abstract instant. */
  datatype Cell = Missing | Text(s: string) | Number(x: real) | Stamp(t: int)

  type Row = map<string, Cell>

  datatype Table = Table(columns: seq<string>, rows: seq<Row>)

  /** The failures a frame operation can raise. */
  datatype Error =
    | MissingColumn(name: string)    // a KeyError on a column label
    | DuplicateColumn(name: string)  // a step would leave two columns with one label
    | NotNumeric(name: string)       // an arithmetic aggregate met a non-numeric cell

  datatype Result<+T> = Success(value: T) | Failure(error: Error) {
    predicate IsFailure() { Failure? }
    function PropagateFailure<U>(): Result<U> requires Failure? { Failure(error) }
    function Extract(): T requires Success? { value }
  }

  /** The frame with no columns and no rows. */
  const Empty: Table := Table([], [])

  /** The cell of `row` under column `c`; a column the row lacks reads as missing. */
  function Get(row: Row, c: string): Cell {
    if c in row then row[c] else Missing
  }

  function Names(cs: seq<string>): set<string> {
    set c | c in cs
  }

  ghost predicate Distinct(cs: seq<string>) {
    forall i, j | 0 <= i < j < |cs| :: cs[i] != cs[j]
  }

  /** A proper frame: column labels are unique and every row holds exactly
      one cell per column. */
  ghost predicate WellFormed(t: Table) {
    && Distinct(t.columns)
    && forall k | 0 <= k < |t.rows| :: t.rows[k].Keys == Names(t.columns)
  }

  /** The row that sends `ns[j]` to `vs[j]`. */
  function Zip(ns: seq<string>, vs: seq<Cell>): (m: Row)
    requires |ns| == |vs|
    ensures m.Keys == Names(ns)
  {
    if ns == [] then map[] else Zip(ns[1..], vs[1..])[ns[0] := vs[0]]
  }

  lemma {:induction false} ZipAt(ns: seq<string>, vs: seq<Cell>, j: nat)
    requires |ns| == |vs| && Distinct(ns) && j < |ns|
    ensures Zip(ns, vs)[ns[j]] == vs[j]
  {
    if j > 0 {
      ZipAt(ns[1..], vs[1..], j - 1);
    }
  }
}
