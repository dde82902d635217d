/** A pandas DataFrame as a value: a schema (an ordered list of distinct
    column names) and a list of rows, each row mapping every column name of
    the schema to a numeric cell that may be missing (NaN). */
module Tables {
  import opened Wrappers
  import opened Sequences

  type Row = map<string, Option<real>>

  datatype Table = Table(columns: seq<string>, rows: seq<Row>)

  /** `pd.DataFrame()`: no columns and no rows. */
  const EMPTY: Table := Table([], [])

  /** The names of a schema, as a set. */
  function ColumnSet(columns: seq<string>): set<string>
  {
    set c | c in columns
  }

  /** Every row has exactly the columns of the schema, which has no repeats. */
  predicate WellFormed(t: Table)
  {
    && Distinct(t.columns)
    && forall i :: 0 <= i < |t.rows| ==> t.rows[i].Keys == ColumnSet(t.columns)
  }

  /** The cell of `row` in column `c`, missing when `row` has no such column. */
  function Get(row: Row, c: string): Option<real>
  {
    if c in row then row[c] else None
  }

  /** `r` has the rows of `t`, one for one, and in every column outside
      `touched` the same cells. */
  ghost predicate SameCellsExcept(t: Table, r: Table, touched: set<string>)
  {
    && |r.rows| == |t.rows|
    && forall i, c :: 0 <= i < |t.rows| && c !in touched ==> Get(r.rows[i], c) == Get(t.rows[i], c)
  }

  /** Two steps in a row change no cell that neither of them touches. */
  lemma SameCellsExceptTransitive(a: Table, b: Table, c: Table, x: set<string>, y: set<string>)
    requires SameCellsExcept(a, b, x) && SameCellsExcept(b, c, y)
    ensures SameCellsExcept(a, c, x + y)
  {
  }

  /** `df[name] = values` on a copy of `t`: a new column is appended to the
      schema, an existing one is overwritten where it stands; row `i` gets
      `values[i]` and every other cell stays as it was. */
  function Assign(t: Table, name: string, values: seq<Option<real>>): (r: Table)
    requires |values| == |t.rows|
    ensures r.columns == Extend(t.columns, name)
    ensures |r.rows| == |t.rows|
    ensures forall i :: 0 <= i < |r.rows| ==> Get(r.rows[i], name) == values[i]
    ensures SameCellsExcept(t, r, {name})
    ensures WellFormed(t) ==> WellFormed(r)
  {
    Table(Extend(t.columns, name), seq(|t.rows|, i requires 0 <= i < |t.rows| => t.rows[i][name := values[i]]))
  }

  /** Assigning to a column the values it already holds returns the table
      unchanged. */
  lemma AssignSameValues(t: Table, name: string, values: seq<Option<real>>)
    requires WellFormed(t) && name in t.columns && |values| == |t.rows|
    requires forall i :: 0 <= i < |t.rows| ==> Get(t.rows[i], name) == values[i]
    ensures Assign(t, name, values) == t
  {
    var r := Assign(t, name, values);
    forall i | 0 <= i < |t.rows|
      ensures r.rows[i] == t.rows[i]
    {
      assert name in t.rows[i];
    }
  }

  /** `df.drop(columns=names, errors="ignore")` on a copy of `t`: the named
      columns that exist are removed, names that do not exist are ignored. */
  function Drop(t: Table, names: seq<string>): (r: Table)
    ensures r.columns == Without(t.columns, names)
    ensures SameCellsExcept(t, r, ColumnSet(names))
    ensures forall i, c :: 0 <= i < |r.rows| && c in names ==> c !in r.rows[i]
    ensures WellFormed(t) ==> WellFormed(r)
  {
    Table(Without(t.columns, names), seq(|t.rows|, i requires 0 <= i < |t.rows| => t.rows[i] - ColumnSet(names)))
  }

  /** Dropping names none of which is a column returns the table unchanged. */
  lemma DropNothing(t: Table, names: seq<string>)
    requires WellFormed(t)
    requires forall c :: c in names ==> c !in t.columns
    ensures Drop(t, names) == t
  {
    WithoutNothing(t.columns, names);
    var r := Drop(t, names);
    forall i | 0 <= i < |t.rows|
      ensures r.rows[i] == t.rows[i]
    {
      assert t.rows[i].Keys !! ColumnSet(names);
    }
  }

  /** `row` has a value (is not NaN) in every column of `cols`. */
  predicate Complete(row: Row, cols: seq<string>)
  {
    forall c :: c in cols ==> Get(row, c).Some?
  }

  /** The rows of `rows` that are complete in `cols`, as an order-preserving
      subsequence holding every complete row as often as `rows` does and no
      other row. */
  function RowsWith(rows: seq<Row>, cols: seq<string>): (r: seq<Row>)
    ensures Subsequence(r, rows)
    ensures forall row :: row in r ==> row in rows && Complete(row, cols)
    ensures forall row :: Complete(row, cols) ==> multiset(r)[row] == multiset(rows)[row]
    decreases |rows|
  {
    if rows == [] then []
    else
      var rest := RowsWith(rows[1..], cols);
      assert rows == [rows[0]] + rows[1..];
      if Complete(rows[0], cols) then [rows[0]] + rest else rest
  }

  /** `r` holds exactly the rows of `t` that are complete in `cols`, in their
      order and as often as `t` holds them, under the schema of `t`. */
  ghost predicate SelectedBy(t: Table, r: Table, cols: seq<string>)
  {
    && r.columns == t.columns
    && Subsequence(r.rows, t.rows)
    && (forall row :: row in r.rows ==> Complete(row, cols))
    && forall row :: Complete(row, cols) ==> multiset(r.rows)[row] == multiset(t.rows)[row]
  }

  /** `df[df[c1].notna() & df[c2].notna() & …]`: the rows of `t` complete in
      `cols`, under the same schema. */
  function Select(t: Table, cols: seq<string>): (r: Table)
    ensures SelectedBy(t, r, cols)
    ensures WellFormed(t) ==> WellFormed(r)
  {
    var rows := RowsWith(t.rows, cols);
    assert WellFormed(t) ==> forall row :: row in rows ==> row.Keys == ColumnSet(t.columns);
    Table(t.columns, rows)
  }
}
