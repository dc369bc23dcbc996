/**
 * The tabular data the filter and sort engine works on: a pandas DataFrame
 * reduced to its column names, each column's dtype, and its rows.
 */
module Frames {

  /** One cell: an int64 value, a bool, or a string held in an object column. */
  datatype Cell = Num(n: int) | Bool(b: bool) | Str(s: string)

  /**
   * A column's dtype. `Int64` is the only numeric dtype modelled; `Boolean`
   * and `Text` stand for the dtypes that are neither int64 nor float64.
   */
  datatype Kind = Int64 | Boolean | Text

  type Row = seq<Cell>

  /** A DataFrame as a value: what a selection `df[mask]` produces. */
  datatype Table = Table(columns: seq<string>, kinds: seq<Kind>, rows: seq<Row>)

  const INT64_MIN: int := -0x8000_0000_0000_0000
  const INT64_MAX: int := 0x7FFF_FFFF_FFFF_FFFF

  predicate InInt64(n: int)
  {
    INT64_MIN <= n <= INT64_MAX
  }

  predicate CellOfKind(c: Cell, k: Kind)
  {
    match k
    case Int64 => c.Num? && InInt64(c.n)
    case Boolean => c.Bool?
    case Text => c.Str?
  }

  predicate DistinctNames(names: seq<string>)
  {
    forall i, j :: 0 <= i < j < |names| ==> names[i] != names[j]
  }

  predicate RowFits(row: Row, kinds: seq<Kind>)
  {
    |row| == |kinds| && forall j :: 0 <= j < |row| ==> CellOfKind(row[j], kinds[j])
  }

  /**
   * The shape every DataFrame read from a CSV file has: one dtype per
   * column, unique column names, and every row holding one cell of the
   * column's dtype per column.
   */
  predicate WellFormed(t: Table)
  {
    && |t.kinds| == |t.columns|
    && DistinctNames(t.columns)
    && forall row :: row in t.rows ==> RowFits(row, t.kinds)
  }

  /** The position of column `name`: pandas' label lookup `df[name]`. */
  function IndexOf(names: seq<string>, name: string): (j: nat)
    requires name in names
    ensures j < |names| && names[j] == name
    ensures forall k :: 0 <= k < j ==> names[k] != name
  {
    if names[0] == name then 0 else 1 + IndexOf(names[1..], name)
  }

  /**
   * A DataFrame object. Its columns and dtypes are fixed; the order of its
   * rows is what an in-place sort changes.
   */
  class DataFrame {
    const columns: seq<string>
    const kinds: seq<Kind>
    var rows: seq<Row>

    constructor (columns: seq<string>, kinds: seq<Kind>, rows: seq<Row>)
      requires WellFormed(Table(columns, kinds, rows))
      ensures Valid()
      ensures this.columns == columns && this.kinds == kinds && this.rows == rows
    {
      this.columns := columns;
      this.kinds := kinds;
      this.rows := rows;
    }

    /** The frame's current contents as a value. */
    function Snapshot(): (t: Table)
      reads this
    {
      Table(columns, kinds, rows)
    }

    ghost predicate Valid()
      reads this
    {
      WellFormed(Snapshot())
    }
  }
}
