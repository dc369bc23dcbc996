/**
 * `sort_data` of utils.py: an in-place multi-key sort of a DataFrame, each
 * key ascending or descending by its own flag.
 */
module Sorting {
  import opened Common
  import opened Frames

  datatype Ordering = Less | Equal | Greater

  function Flip(o: Ordering): Ordering
  {
    match o
    case Less => Greater
    case Equal => Equal
    case Greater => Less
  }

  function CompareInts(x: int, y: int): Ordering
  {
    if x < y then Less else if x == y then Equal else Greater
  }

  /** Python's `str` order: code point by code point, a proper prefix first. */
  function CompareStrings(a: string, b: string): (r: Ordering)
    ensures |a| < |b| && a == b[..|a|] ==> r == Less
    ensures forall k :: 0 <= k < |a| && k < |b| && a[..k] == b[..k] && a[k] != b[k] ==>
      r == (if a[k] < b[k] then Less else Greater)
    decreases |a|
  {
    if a == [] then (if b == [] then Equal else Less)
    else if b == [] then Greater
    else if a[0] < b[0] then Less
    else if b[0] < a[0] then Greater
    else
      TailPrefixes(a, b);
      CompareStrings(a[1..], b[1..])
  }

  /** Agreeing on the first `k` characters is agreeing on the first one and on `k - 1` of the tails. */
  lemma TailPrefixes(a: string, b: string)
    requires a != [] && b != []
    ensures forall k :: 0 < k <= |a| && k <= |b| && a[..k] == b[..k] ==>
      a[0] == b[0] && a[1..][..k - 1] == b[1..][..k - 1]
    ensures |a| < |b| && a == b[..|a|] ==> a[1..] == b[1..][..|a| - 1]
  {
    forall k | 0 < k <= |a| && k <= |b| && a[..k] == b[..k]
      ensures a[0] == b[0] && a[1..][..k - 1] == b[1..][..k - 1]
    {
      assert a[0] == a[..k][0];
      assert a[1..][..k - 1] == a[..k][1..] && b[1..][..k - 1] == b[..k][1..];
    }
  }

  function Rank(c: Cell): nat
  {
    match c
    case Num(_) => 0
    case Bool(_) => 1
    case Str(_) => 2
  }

  /**
   * The order of values within one column: numbers by value, `False` before
   * `True`, strings lexicographically. Cells of different variants never
   * share a column; they are ordered by variant only to keep the order total.
   */
  function CompareCells(a: Cell, b: Cell): (r: Ordering)
    ensures a.Num? && b.Num? ==> (r == Less <==> a.n < b.n) && (r == Equal <==> a.n == b.n)
    ensures a.Bool? && b.Bool? ==> (r == Less <==> !a.b && b.b) && (r == Equal <==> a.b == b.b)
    ensures a.Str? && b.Str? ==> r == CompareStrings(a.s, b.s)
  {
    if a.Num? && b.Num? then CompareInts(a.n, b.n)
    else if a.Bool? && b.Bool? then CompareInts(if a.b then 1 else 0, if b.b then 1 else 0)
    else if a.Str? && b.Str? then CompareStrings(a.s, b.s)
    else CompareInts(Rank(a), Rank(b))
  }

  /** The cell of `row` in column `i`, if the row is that long. */
  function KeyValue(row: Row, i: nat): Option<Cell>
  {
    if i < |row| then Some(row[i]) else None
  }

  function CompareKeyValues(x: Option<Cell>, y: Option<Cell>): Ordering
  {
    match (x, y)
    case (None, None) => Equal
    case (None, Some(_)) => Less
    case (Some(_), None) => Greater
    case (Some(c), Some(d)) => CompareCells(c, d)
  }

  /** A sort key: a column position and whether it sorts ascending. */
  datatype SortKey = SortKey(index: nat, ascending: bool)

  function Directed(o: Ordering, ascending: bool): Ordering
  {
    if ascending then o else Flip(o)
  }

  /** How rows `a` and `b` compare on one key, in that key's direction. */
  function CompareOnKey(a: Row, b: Row, key: SortKey): Ordering
  {
    Directed(CompareKeyValues(KeyValue(a, key.index), KeyValue(b, key.index)), key.ascending)
  }

  /** Lexicographic order by the keys: the first key that tells the rows apart decides. */
  function CompareRows(a: Row, b: Row, keys: seq<SortKey>): (r: Ordering)
    ensures keys == [] ==> r == Equal
    ensures keys != [] && CompareOnKey(a, b, keys[0]) != Equal ==> r == CompareOnKey(a, b, keys[0])
    decreases |keys|
  {
    if keys == [] then Equal
    else
      var d := CompareOnKey(a, b, keys[0]);
      if d != Equal then d else CompareRows(a, b, keys[1..])
  }

  /** Every row is ordered no later than its successor. */
  predicate Sorted(rows: seq<Row>, keys: seq<SortKey>)
  {
    forall i :: 0 < i < |rows| ==> CompareRows(rows[i - 1], rows[i], keys) != Greater
  }

  // ---------------------------------------------------------------------
  // The orders are total orders
  // ---------------------------------------------------------------------

  lemma {:induction false} CompareStringsFlip(a: string, b: string)
    ensures CompareStrings(b, a) == Flip(CompareStrings(a, b))
    decreases |a|
  {
    if a != [] && b != [] && a[0] == b[0] {
      CompareStringsFlip(a[1..], b[1..]);
    }
  }

  lemma {:induction false} CompareStringsEqual(a: string, b: string)
    ensures CompareStrings(a, b) == Equal <==> a == b
    decreases |a|
  {
    if a != [] && b != [] && a[0] == b[0] {
      CompareStringsEqual(a[1..], b[1..]);
      assert a == [a[0]] + a[1..] && b == [b[0]] + b[1..];
    }
  }

  lemma {:induction false} CompareStringsTransitive(a: string, b: string, c: string)
    requires CompareStrings(a, b) == Less && CompareStrings(b, c) == Less
    ensures CompareStrings(a, c) == Less
    decreases |a|
  {
    if a != [] && b != [] && c != [] && a[0] == b[0] && b[0] == c[0] {
      CompareStringsTransitive(a[1..], b[1..], c[1..]);
    }
  }

  lemma CompareCellsFlip(a: Cell, b: Cell)
    ensures CompareCells(b, a) == Flip(CompareCells(a, b))
  {
    if a.Str? && b.Str? {
      CompareStringsFlip(a.s, b.s);
    }
  }

  lemma CompareCellsEqual(a: Cell, b: Cell)
    ensures CompareCells(a, b) == Equal <==> a == b
  {
    if a.Str? && b.Str? {
      CompareStringsEqual(a.s, b.s);
    }
  }

  lemma CompareCellsTransitive(a: Cell, b: Cell, c: Cell)
    requires CompareCells(a, b) == Less && CompareCells(b, c) == Less
    ensures CompareCells(a, c) == Less
  {
    if a.Str? && b.Str? && c.Str? {
      CompareStringsTransitive(a.s, b.s, c.s);
    }
  }

  lemma CompareKeyValuesFlip(x: Option<Cell>, y: Option<Cell>)
    ensures CompareKeyValues(y, x) == Flip(CompareKeyValues(x, y))
  {
    if x.Some? && y.Some? {
      CompareCellsFlip(x.value, y.value);
    }
  }

  lemma CompareKeyValuesEqual(x: Option<Cell>, y: Option<Cell>)
    ensures CompareKeyValues(x, y) == Equal <==> x == y
  {
    if x.Some? && y.Some? {
      CompareCellsEqual(x.value, y.value);
    }
  }

  lemma CompareKeyValuesTransitive(x: Option<Cell>, y: Option<Cell>, z: Option<Cell>)
    requires CompareKeyValues(x, y) == Less && CompareKeyValues(y, z) == Less
    ensures CompareKeyValues(x, z) == Less
  {
    if x.Some? && y.Some? && z.Some? {
      CompareCellsTransitive(x.value, y.value, z.value);
    }
  }

  lemma CompareOnKeyFlip(a: Row, b: Row, key: SortKey)
    ensures CompareOnKey(b, a, key) == Flip(CompareOnKey(a, b, key))
  {
    CompareKeyValuesFlip(KeyValue(a, key.index), KeyValue(b, key.index));
  }

  /** On one key, "equal" means the rows hold the same cell there. */
  lemma CompareOnKeyEqual(a: Row, b: Row, key: SortKey)
    ensures CompareOnKey(a, b, key) == Equal <==> KeyValue(a, key.index) == KeyValue(b, key.index)
  {
    CompareKeyValuesEqual(KeyValue(a, key.index), KeyValue(b, key.index));
  }

  lemma CompareOnKeyTransitive(a: Row, b: Row, c: Row, key: SortKey)
    requires CompareOnKey(a, b, key) == Less && CompareOnKey(b, c, key) == Less
    ensures CompareOnKey(a, c, key) == Less
  {
    var x, y, z := KeyValue(a, key.index), KeyValue(b, key.index), KeyValue(c, key.index);
    if key.ascending {
      CompareKeyValuesTransitive(x, y, z);
    } else {
      CompareKeyValuesFlip(x, y);
      CompareKeyValuesFlip(y, z);
      CompareKeyValuesFlip(x, z);
      CompareKeyValuesTransitive(z, y, x);
    }
  }

  /** Swapping the rows swaps the verdict. */
  lemma {:induction false} CompareRowsFlip(a: Row, b: Row, keys: seq<SortKey>)
    ensures CompareRows(b, a, keys) == Flip(CompareRows(a, b, keys))
    decreases |keys|
  {
    if keys != [] {
      CompareOnKeyFlip(a, b, keys[0]);
      CompareRowsFlip(a, b, keys[1..]);
    }
  }

  /** "Not after" is transitive on rows. */
  lemma {:induction false} CompareRowsTransitive(a: Row, b: Row, c: Row, keys: seq<SortKey>)
    requires CompareRows(a, b, keys) != Greater && CompareRows(b, c, keys) != Greater
    ensures CompareRows(a, c, keys) != Greater
    ensures CompareRows(a, b, keys) == Less || CompareRows(b, c, keys) == Less ==> CompareRows(a, c, keys) == Less
    decreases |keys|
  {
    if keys != [] {
      var key := keys[0];
      var ab, bc, ac := CompareOnKey(a, b, key), CompareOnKey(b, c, key), CompareOnKey(a, c, key);
      CompareOnKeyEqual(a, b, key);
      CompareOnKeyEqual(b, c, key);
      CompareOnKeyEqual(a, c, key);
      if ab == Equal {
        assert ac == bc;
        if bc == Equal {
          CompareRowsTransitive(a, b, c, keys[1..]);
        }
      } else if bc == Equal {
        assert ac == ab;
      } else {
        CompareOnKeyTransitive(a, b, c, key);
      }
    }
  }

  /**
   * Rows that hold the same cells in every key column compare equal, and
   * only those.
   */
  lemma {:induction false} CompareRowsEqual(a: Row, b: Row, keys: seq<SortKey>)
    ensures CompareRows(a, b, keys) == Equal <==>
      forall k :: 0 <= k < |keys| ==> KeyValue(a, keys[k].index) == KeyValue(b, keys[k].index)
    decreases |keys|
  {
    if keys != [] {
      CompareOnKeyEqual(a, b, keys[0]);
      CompareRowsEqual(a, b, keys[1..]);
      assert forall k :: 1 <= k < |keys| ==> keys[k] == keys[1..][k - 1];
    }
  }

  /**
   * Lexicographic order: when the rows agree on the first `i` keys and
   * differ on key `i`, key `i` in its own direction decides.
   */
  lemma {:induction false} FirstDifferenceDecides(a: Row, b: Row, keys: seq<SortKey>, i: nat)
    requires i < |keys|
    requires forall k :: 0 <= k < i ==> KeyValue(a, keys[k].index) == KeyValue(b, keys[k].index)
    requires KeyValue(a, keys[i].index) != KeyValue(b, keys[i].index)
    ensures CompareRows(a, b, keys) == CompareOnKey(a, b, keys[i]) != Equal
    decreases i
  {
    CompareOnKeyEqual(a, b, keys[0]);
    if i > 0 {
      FirstDifferenceDecides(a, b, keys[1..], i - 1);
    }
  }

  // ---------------------------------------------------------------------
  // The sort
  // ---------------------------------------------------------------------

  /** Places `x` before the first row of `s` it does not come after. */
  function Insert(x: Row, s: seq<Row>, keys: seq<SortKey>): (r: seq<Row>)
    ensures multiset(r) == multiset(s) + multiset{x}
    ensures |r| == |s| + 1
    ensures r[0] == x || (s != [] && r[0] == s[0])
    decreases |s|
  {
    if s == [] || CompareRows(x, s[0], keys) != Greater then [x] + s
    else
      assert s == [s[0]] + s[1..];
      [s[0]] + Insert(x, s[1..], keys)
  }

  lemma {:induction false} InsertSorted(x: Row, s: seq<Row>, keys: seq<SortKey>)
    requires Sorted(s, keys)
    ensures Sorted(Insert(x, s, keys), keys)
    decreases |s|
  {
    var r := Insert(x, s, keys);
    if s != [] && CompareRows(x, s[0], keys) == Greater {
      CompareRowsFlip(x, s[0], keys);
      var tail := Insert(x, s[1..], keys);
      SortedTail(s, keys);
      InsertSorted(x, s[1..], keys);
      assert r == [s[0]] + tail;
      forall i | 0 < i < |r| ensures CompareRows(r[i - 1], r[i], keys) != Greater {
        if i > 1 {
          assert r[i - 1] == tail[i - 2] && r[i] == tail[i - 1];
        }
      }
    }
  }

  /**
   * The model of `df.sort_values(columns, ascending=...)`: the rows in
   * lexicographic key order. It is an insertion sort, which is stable;
   * pandas does not promise stability for a single key.
   */
  function SortRows(rows: seq<Row>, keys: seq<SortKey>): (r: seq<Row>)
    ensures multiset(r) == multiset(rows)
    ensures Sorted(r, keys)
    decreases |rows|
  {
    if rows == [] then []
    else
      assert rows == [rows[0]] + rows[1..];
      var rest := SortRows(rows[1..], keys);
      InsertSorted(rows[0], rest, keys);
      Insert(rows[0], rest, keys)
  }

  lemma SortedTail(rows: seq<Row>, keys: seq<SortKey>)
    requires rows != [] && Sorted(rows, keys)
    ensures Sorted(rows[1..], keys)
  {
    forall i | 0 < i < |rows[1..]| ensures CompareRows(rows[1..][i - 1], rows[1..][i], keys) != Greater {
      assert rows[1..][i - 1] == rows[i] && rows[1..][i] == rows[i + 1];
    }
  }

  /** A sorted table is left as it is. */
  lemma {:induction false} SortSortedIsIdentity(rows: seq<Row>, keys: seq<SortKey>)
    requires Sorted(rows, keys)
    ensures SortRows(rows, keys) == rows
    decreases |rows|
  {
    if rows != [] {
      var tail := rows[1..];
      SortedTail(rows, keys);
      SortSortedIsIdentity(tail, keys);
      assert SortRows(rows, keys) == Insert(rows[0], tail, keys);
      if tail != [] {
        assert tail[0] == rows[1];
        assert CompareRows(rows[0], tail[0], keys) != Greater;
      }
      assert Insert(rows[0], tail, keys) == [rows[0]] + tail;
      assert rows == [rows[0]] + tail;
    }
  }

  /** Sorting twice by the same keys is sorting once. */
  lemma SortIdempotent(rows: seq<Row>, keys: seq<SortKey>)
    ensures SortRows(SortRows(rows, keys), keys) == SortRows(rows, keys)
  {
    SortSortedIsIdentity(SortRows(rows, keys), keys);
  }

  /** Sorted successors make a sorted sequence: every earlier row, not only the previous one. */
  lemma {:induction false} SortedPair(rows: seq<Row>, keys: seq<SortKey>, i: nat, j: nat)
    requires Sorted(rows, keys)
    requires i < j < |rows|
    ensures CompareRows(rows[i], rows[j], keys) != Greater
    decreases j - i
  {
    if j > i + 1 {
      SortedPair(rows, keys, i, j - 1);
      CompareRowsTransitive(rows[i], rows[j - 1], rows[j], keys);
    }
  }

  lemma SortedIsOrdered(rows: seq<Row>, keys: seq<SortKey>)
    requires Sorted(rows, keys)
    ensures forall i, j :: 0 <= i < j < |rows| ==> CompareRows(rows[i], rows[j], keys) != Greater
  {
    forall i, j | 0 <= i < j < |rows| ensures CompareRows(rows[i], rows[j], keys) != Greater {
      SortedPair(rows, keys, i, j);
    }
  }

  // ---------------------------------------------------------------------
  // sort_data
  // ---------------------------------------------------------------------

  /** The exceptions `sort_values` raises before touching the frame. */
  datatype SortError =
    | LengthMismatch(ascendingLength: nat, columnsLength: nat)  // "Length of ascending (..) != length of by (..)"
    | KeyError(column: string)

  /** The keys for `columns`, or a KeyError for the first one not in the frame. */
  function KeysFor(names: seq<string>, columns: seq<string>, ascending: seq<bool>): (r: Result<seq<SortKey>, SortError>)
    requires |columns| == |ascending|
    ensures r.Ok? <==> forall c :: c in columns ==> c in names
    ensures r.Ok? ==>
      && |r.value| == |columns|
      && forall k :: 0 <= k < |columns| ==> r.value[k] == SortKey(IndexOf(names, columns[k]), ascending[k])
    ensures r.Err? ==> r.error.KeyError? && r.error.column in columns && r.error.column !in names
    ensures r.Err? ==>
      exists k :: (0 <= k < |columns| && r.error.column == columns[k] && forall m :: 0 <= m < k ==> columns[m] in names)
    decreases |columns|
  {
    if columns == [] then Ok([])
    else if columns[0] !in names then Err(KeyError(columns[0]))
    else
      match KeysFor(names, columns[1..], ascending[1..])
      case Err(e) => Err(e)
      case Ok(rest) => Ok([SortKey(IndexOf(names, columns[0]), ascending[0])] + rest)
  }

  /** The checks of `sort_values`: equal lengths first, then every column present. */
  function SortKeys(names: seq<string>, columns: seq<string>, ascending: seq<bool>): (r: Result<seq<SortKey>, SortError>)
    ensures r.Ok? <==> |columns| == |ascending| && forall c :: c in columns ==> c in names
    ensures r.Ok? ==>
      && |r.value| == |columns|
      && forall k :: 0 <= k < |columns| ==> r.value[k] == SortKey(IndexOf(names, columns[k]), ascending[k])
    ensures r.Err? && r.error.LengthMismatch? <==> |columns| != |ascending|
    ensures r.Err? && r.error.LengthMismatch? ==> r.error == LengthMismatch(|ascending|, |columns|)
    ensures r.Err? && r.error.KeyError? ==>
      && |columns| == |ascending|
      && exists k :: (0 <= k < |columns| && r.error.column == columns[k] && columns[k] !in names &&
                      forall m :: 0 <= m < k ==> columns[m] in names)
  {
    if |columns| != |ascending| then Err(LengthMismatch(|ascending|, |columns|))
    else KeysFor(names, columns, ascending)
  }

  /**
   * sort_data (utils.py:29-45): an empty column list leaves the frame alone;
   * otherwise the frame's rows are sorted in place and the same frame is
   * returned, unless `sort_values` rejects the arguments first.
   */
  method SortData(df: DataFrame, columns: seq<string>, ascending: seq<bool>) returns (r: Result<DataFrame, SortError>)
    requires df.Valid()
    modifies df
    ensures df.Valid()
    ensures r.Ok? ==> r.value == df
    ensures columns == [] ==> r.Ok? && df.rows == old(df.rows)
    ensures columns != [] ==>
      match SortKeys(df.columns, columns, ascending)
      case Err(e) => r == Err(e) && df.rows == old(df.rows)
      case Ok(keys) =>
        && r.Ok?
        && df.rows == SortRows(old(df.rows), keys)
        && multiset(df.rows) == multiset(old(df.rows))
        && Sorted(df.rows, keys)
  {
    if columns == [] {
      return Ok(df);
    }
    var keys := SortKeys(df.columns, columns, ascending);
    if keys.Err? {
      return Err(keys.error);
    }
    ghost var before := df.rows;
    df.rows := SortRows(df.rows, keys.value);
    forall row | row in df.rows ensures RowFits(row, df.kinds) {
      assert row in multiset(df.rows);
      assert row in before;
    }
    r := Ok(df);
  }
}
