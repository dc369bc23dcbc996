/**
 * `filter_data` of utils.py: a list of `(column, operator, value)`
 * conditions, applied one after the other, each narrowing the rows left by
 * the one before.
 */
module Filtering {
  import opened Common
  import opened Decimal
  import opened Frames

  /** The six operators of the dispatch at utils.py:81-94. */
  datatype Op = Eq | Ne | Gt | Ge | Lt | Le

  function OperatorName(op: Op): string
  {
    match op
    case Eq => "eq"
    case Ne => "ne"
    case Gt => "gt"
    case Ge => "ge"
    case Lt => "lt"
    case Le => "le"
  }

  /** Recognises an operator's spelling; every other string is unsupported. */
  function ParseOperator(s: string): (r: Option<Op>)
    ensures r.Some? ==> OperatorName(r.value) == s
    ensures forall op: Op :: OperatorName(op) == s ==> r == Some(op)
  {
    if s == "eq" then Some(Eq)
    else if s == "gt" then Some(Gt)
    else if s == "ge" then Some(Ge)
    else if s == "lt" then Some(Lt)
    else if s == "le" then Some(Le)
    else if s == "ne" then Some(Ne)
    else None
  }

  /** One filter condition; `value` is the raw text of the request. */
  datatype Condition = Condition(column: string, operator: string, value: string)

  /** The exceptions `filter_data` lets escape. */
  datatype FilterError =
    | UnknownColumn(column: string)
    | InvalidValue(value: string, column: string)
      // numpy raises OverflowError, which the `except ValueError` does not catch
    | ValueOutOfRange(value: string, column: string)
    | UnsupportedOperator(operator: string)

  /** The text of the exception; each one names what it rejects. */
  function Message(e: FilterError): (r: string)
    ensures e.UnknownColumn? ==> 8 + |e.column| <= |r| && r[8..8 + |e.column|] == e.column
    ensures e.InvalidValue? ==> 15 + |e.value| <= |r| && r[15..15 + |e.value|] == e.value
    ensures e.InvalidValue? ==> EndsWith(r, e.column + "'")
    ensures e.UnsupportedOperator? ==> EndsWith(r, e.operator)
  {
    match e
    case UnknownColumn(column) => "Column '" + column + "' does not exist in file"
    case InvalidValue(value, column) => "Invalid value '" + value + "' for column '" + column + "'"
    // numpy's own wording of the OverflowError (it varies between numpy
    // versions); utils.py does not produce this text itself
    case ValueOutOfRange(_, _) => "Python int too large to convert to C long"
    case UnsupportedOperator(operator) => "Unsupported operator: " + operator
  }

  /** A resolved condition: compare the cell at `index` with `operand` by `op`. */
  datatype Test = Test(index: nat, op: Op, operand: Cell)

  /**
   * pandas' element-wise comparison of a cell with the condition's value.
   * Equality is equality of values (a string never equals a bool); ordering
   * is defined on numbers only, the one dtype on which it is ever applied.
   */
  predicate Compare(c: Cell, op: Op, x: Cell)
    ensures Compare(c, op, x) && op != Eq && op != Ne ==> c.Num? && x.Num?
  {
    match op
    case Eq => c == x
    case Ne => c != x
    case Gt => c.Num? && x.Num? && c.n > x.n
    case Ge => c.Num? && x.Num? && c.n >= x.n
    case Lt => c.Num? && x.Num? && c.n < x.n
    case Le => c.Num? && x.Num? && c.n <= x.n
  }

  /**
   * The six operators are the usual relations: `ne` is the negation of `eq`,
   * `lt`/`le` are `gt`/`ge` with the operands swapped, and on numbers `ge` is
   * `gt` or `eq` and exactly one of `lt`, `eq`, `gt` holds.
   */
  lemma CompareLaws(c: Cell, x: Cell)
    ensures Compare(c, Ne, x) <==> !Compare(c, Eq, x)
    ensures Compare(c, Lt, x) <==> Compare(x, Gt, c)
    ensures Compare(c, Le, x) <==> Compare(x, Ge, c)
    ensures c.Num? && x.Num? ==> (Compare(c, Ge, x) <==> Compare(c, Gt, x) || Compare(c, Eq, x))
    ensures c.Num? && x.Num? ==>
      (if Compare(c, Lt, x) then 1 else 0) + (if Compare(c, Eq, x) then 1 else 0) + (if Compare(c, Gt, x) then 1 else 0) == 1
  {
  }

  predicate Passes(row: Row, t: Test)
  {
    t.index < |row| && Compare(row[t.index], t.op, t.operand)
  }

  predicate PassesAll(row: Row, tests: seq<Test>)
  {
    forall k :: 0 <= k < |tests| ==> Passes(row, tests[k])
  }

  /** The boolean-mask selection `df[mask]`: the rows that pass, in order. */
  function Select(rows: seq<Row>, tests: seq<Test>): (r: seq<Row>)
    ensures |r| <= |rows|
    ensures forall row :: row in r <==> row in rows && PassesAll(row, tests)
  {
    if rows == [] then []
    else
      assert rows == [rows[0]] + rows[1..];
      (if PassesAll(rows[0], tests) then [rows[0]] else []) + Select(rows[1..], tests)
  }

  // ---------------------------------------------------------------------
  // The loop body of filter_data as the source writes it
  // ---------------------------------------------------------------------

  /** utils.py:81-94: select by the named operator, or reject the operator. */
  function Dispatch(t: Table, j: nat, operator: string, operand: Cell): (r: Result<Table, FilterError>)
    ensures ParseOperator(operator).None? <==> r == Err(UnsupportedOperator(operator))
    ensures r.Ok? <==> ParseOperator(operator).Some?
    ensures r.Ok? ==> r.value.columns == t.columns && r.value.kinds == t.kinds
    ensures r.Ok? ==> forall row :: row in r.value.rows <==>
      row in t.rows && Passes(row, Test(j, ParseOperator(operator).value, operand))
  {
    match ParseOperator(operator)
    case None => Err(UnsupportedOperator(operator))
    case Some(op) =>
      var test := Test(j, op, operand);
      assert forall row :: PassesAll(row, [test]) <==> Passes(row, [test][0]);
      Ok(t.(rows := Select(t.rows, [test])))
  }

  /**
   * One iteration of the loop at utils.py:59-94. An int64 column coerces the
   * value first; every other dtype passes `isinstance(column_dtype, object)`,
   * which is always true, so the "Unsupported data type" branch is never
   * reached; there the eq/ne selection is made, and made again by the
   * dispatch that follows.
   */
  function ApplyCondition(t: Table, c: Condition): (r: Result<Table, FilterError>)
    requires |t.kinds| == |t.columns|
    ensures r.Ok? ==> r.value.columns == t.columns && r.value.kinds == t.kinds
  {
    if c.column !in t.columns then Err(UnknownColumn(c.column))
    else
      var j := IndexOf(t.columns, c.column);
      if t.kinds[j] == Int64 then
        match ParseInt(c.value)
        case None => Err(InvalidValue(c.value, c.column))
        case Some(v) =>
          if !InInt64(v) then Err(ValueOutOfRange(c.value, c.column))
          else Dispatch(t, j, c.operator, Num(v))
      else if c.operator == "eq" then
        Dispatch(t.(rows := Select(t.rows, [Test(j, Eq, Str(c.value))])), j, c.operator, Str(c.value))
      else if c.operator == "ne" then
        Dispatch(t.(rows := Select(t.rows, [Test(j, Ne, Str(c.value))])), j, c.operator, Str(c.value))
      else Err(UnsupportedOperator(c.operator))
  }

  /** The whole of filter_data: the conditions folded left to right. */
  function Filter(t: Table, conditions: seq<Condition>): (r: Result<Table, FilterError>)
    requires |t.kinds| == |t.columns|
    ensures r.Ok? ==> r.value.columns == t.columns && r.value.kinds == t.kinds
    decreases |conditions|
  {
    if conditions == [] then Ok(t)
    else
      match ApplyCondition(t, conditions[0])
      case Err(e) => Err(e)
      case Ok(next) => Filter(next, conditions[1..])
  }

  /**
   * filter_data (utils.py:48-96). The DataFrame is only read: each step
   * rebinds a local to a new selection, and the result is returned as a value.
   */
  method FilterData(df: DataFrame, conditions: seq<Condition>) returns (r: Result<Table, FilterError>)
    requires |df.kinds| == |df.columns|
    ensures r == Filter(df.Snapshot(), conditions)
    ensures conditions == [] ==> r == Ok(df.Snapshot())
    ensures r.Ok? <==> forall k :: 0 <= k < |conditions| ==> Resolve(df.columns, df.kinds, conditions[k]).Ok?
    ensures r.Ok? ==>
      && r.value.columns == df.columns && r.value.kinds == df.kinds
      && IsSubsequence(r.value.rows, df.rows)
      && forall row :: row in r.value.rows <==> row in df.rows && SatisfiesAll(row, df.columns, df.kinds, conditions)
  {
    FilterSemantics(df.Snapshot(), conditions);
    var current := df.Snapshot();
    var i := 0;
    while i < |conditions|
      invariant 0 <= i <= |conditions|
      invariant current.columns == df.columns && current.kinds == df.kinds
      invariant Filter(df.Snapshot(), conditions) == Filter(current, conditions[i..])
    {
      var step := ApplyCondition(current, conditions[i]);
      assert conditions[i..][1..] == conditions[i + 1..];
      if step.Err? {
        return Err(step.error);
      }
      current := step.value;
      i := i + 1;
    }
    r := Ok(current);
  }

  // ---------------------------------------------------------------------
  // The meaning of a condition, independent of the order of the checks
  // ---------------------------------------------------------------------

  /**
   * What a condition asks of a table with these columns and dtypes: the
   * test it stands for, or the error the source raises for it.
   */
  function Resolve(columns: seq<string>, kinds: seq<Kind>, c: Condition): (r: Result<Test, FilterError>)
    requires |kinds| == |columns|
    ensures r.Ok? <==>
      && c.column in columns
      && (if kinds[IndexOf(columns, c.column)] == Int64
          then ParseInt(c.value).Some? && InInt64(ParseInt(c.value).value) && ParseOperator(c.operator).Some?
          else c.operator == "eq" || c.operator == "ne")
    ensures c.column !in columns <==> r == Err(UnknownColumn(c.column))
    ensures c.column in columns && kinds[IndexOf(columns, c.column)] == Int64 ==>
      (ParseInt(c.value).None? <==> r == Err(InvalidValue(c.value, c.column)))
    ensures (c.column in columns && kinds[IndexOf(columns, c.column)] == Int64 &&
             ParseInt(c.value).Some? && !InInt64(ParseInt(c.value).value)) ==>
      r == Err(ValueOutOfRange(c.value, c.column))
    ensures (c.column in columns && kinds[IndexOf(columns, c.column)] == Int64 &&
             ParseInt(c.value).Some? && InInt64(ParseInt(c.value).value)) ==>
      (ParseOperator(c.operator).None? <==> r == Err(UnsupportedOperator(c.operator)))
    ensures c.column in columns && kinds[IndexOf(columns, c.column)] != Int64 ==>
      (c.operator != "eq" && c.operator != "ne" <==> r == Err(UnsupportedOperator(c.operator)))
    ensures r.Ok? ==>
      && c.column in columns
      && r.value.index == IndexOf(columns, c.column)
      && OperatorName(r.value.op) == c.operator
      && (if kinds[r.value.index] == Int64
          then ParseInt(c.value).Some? && InInt64(ParseInt(c.value).value) &&
               r.value.operand == Num(ParseInt(c.value).value)
          else (r.value.op == Eq || r.value.op == Ne) && r.value.operand == Str(c.value))
  {
    if c.column !in columns then Err(UnknownColumn(c.column))
    else
      var j := IndexOf(columns, c.column);
      if kinds[j] == Int64 then
        match ParseInt(c.value)
        case None => Err(InvalidValue(c.value, c.column))
        case Some(v) =>
          if !InInt64(v) then Err(ValueOutOfRange(c.value, c.column))
          else
            match ParseOperator(c.operator)
            case None => Err(UnsupportedOperator(c.operator))
            case Some(op) => Ok(Test(j, op, Num(v)))
      else if c.operator == "eq" then Ok(Test(j, Eq, Str(c.value)))
      else if c.operator == "ne" then Ok(Test(j, Ne, Str(c.value)))
      else Err(UnsupportedOperator(c.operator))
  }

  /** All conditions resolved, or the error of the first that does not resolve. */
  function ResolveAll(columns: seq<string>, kinds: seq<Kind>, conditions: seq<Condition>): (r: Result<seq<Test>, FilterError>)
    requires |kinds| == |columns|
    ensures r.Ok? <==> forall k :: 0 <= k < |conditions| ==> Resolve(columns, kinds, conditions[k]).Ok?
    ensures r.Ok? ==>
      && |r.value| == |conditions|
      && forall k :: 0 <= k < |conditions| ==> Resolve(columns, kinds, conditions[k]) == Ok(r.value[k])
    decreases |conditions|
  {
    if conditions == [] then Ok([])
    else
      match Resolve(columns, kinds, conditions[0])
      case Err(e) => Err(e)
      case Ok(first) =>
        assert forall k :: 1 <= k < |conditions| ==> conditions[k] == conditions[1..][k - 1];
        match ResolveAll(columns, kinds, conditions[1..])
        case Err(e) => Err(e)
        case Ok(rest) => Ok([first] + rest)
  }

  /** A row meets every condition of the list. */
  predicate SatisfiesAll(row: Row, columns: seq<string>, kinds: seq<Kind>, conditions: seq<Condition>)
    requires |kinds| == |columns|
  {
    forall k :: 0 <= k < |conditions| ==>
      var r := Resolve(columns, kinds, conditions[k]);
      r.Ok? && Passes(row, r.value)
  }

  // ---------------------------------------------------------------------
  // Selection
  // ---------------------------------------------------------------------

  lemma PassesAllAppend(row: Row, a: seq<Test>, b: seq<Test>)
    ensures PassesAll(row, a + b) <==> PassesAll(row, a) && PassesAll(row, b)
  {
    if PassesAll(row, a + b) {
      forall k | 0 <= k < |a| ensures Passes(row, a[k]) {
        assert (a + b)[k] == a[k];
      }
      forall k | 0 <= k < |b| ensures Passes(row, b[k]) {
        assert (a + b)[|a| + k] == b[k];
      }
    }
  }

  /** An empty list of tests keeps every row. */
  lemma {:induction false} SelectNothing(rows: seq<Row>)
    ensures Select(rows, []) == rows
  {
    if rows != [] {
      SelectNothing(rows[1..]);
    }
  }

  /** Selecting twice by the same tests is selecting once. */
  lemma {:induction false} SelectIdempotent(rows: seq<Row>, tests: seq<Test>)
    ensures Select(Select(rows, tests), tests) == Select(rows, tests)
  {
    if rows != [] {
      SelectIdempotent(rows[1..], tests);
      var s := Select(rows, tests);
      if PassesAll(rows[0], tests) {
        assert s == [rows[0]] + Select(rows[1..], tests);
        assert s[0] == rows[0] && s[1..] == Select(rows[1..], tests);
      } else {
        assert s == Select(rows[1..], tests);
      }
    }
  }

  /** Narrowing by `a` and then by `b` is narrowing by both. */
  lemma {:induction false} SelectComposes(rows: seq<Row>, a: seq<Test>, b: seq<Test>)
    ensures Select(Select(rows, a), b) == Select(rows, a + b)
  {
    if rows != [] {
      SelectComposes(rows[1..], a, b);
      PassesAllAppend(rows[0], a, b);
      var s := Select(rows, a);
      if PassesAll(rows[0], a) {
        assert s == [rows[0]] + Select(rows[1..], a);
        assert s[0] == rows[0] && s[1..] == Select(rows[1..], a);
      } else {
        assert s == Select(rows[1..], a);
      }
    }
  }

  /** The selection keeps the order of the rows it keeps. */
  lemma {:induction false} SelectIsSubsequence(rows: seq<Row>, tests: seq<Test>)
    ensures IsSubsequence(Select(rows, tests), rows)
  {
    if rows != [] {
      SelectIsSubsequence(rows[1..], tests);
      var s := Select(rows, tests);
      if PassesAll(rows[0], tests) {
        assert s == [rows[0]] + Select(rows[1..], tests);
        assert s[0] == rows[0] && s[1..] == Select(rows[1..], tests);
      } else {
        assert s == Select(rows[1..], tests);
      }
    }
  }

  /**
   * Each row that passes is kept as often as it occurs; each row that fails
   * is dropped. Nothing is duplicated and nothing is invented.
   */
  lemma {:induction false} SelectCount(rows: seq<Row>, tests: seq<Test>, row: Row)
    ensures multiset(Select(rows, tests))[row] == if PassesAll(row, tests) then multiset(rows)[row] else 0
  {
    if rows != [] {
      SelectCount(rows[1..], tests, row);
      assert rows == [rows[0]] + rows[1..];
      assert multiset(rows) == multiset{rows[0]} + multiset(rows[1..]);
    }
  }

  // ---------------------------------------------------------------------
  // What filter_data computes
  // ---------------------------------------------------------------------

  /**
   * A step of the loop is the selection by the condition's test, or the
   * condition's error. On a text column the eq/ne selection is made twice
   * (utils.py:72-75 and again at 81-82 or 91-92), which is harmless.
   */
  lemma ApplyConditionIsSelection(t: Table, c: Condition)
    requires |t.kinds| == |t.columns|
    ensures var r := Resolve(t.columns, t.kinds, c);
      ApplyCondition(t, c) == if r.Ok? then Ok(t.(rows := Select(t.rows, [r.value]))) else Err(r.error)
  {
    if c.column in t.columns {
      var j := IndexOf(t.columns, c.column);
      if t.kinds[j] != Int64 && c.operator == "eq" {
        SelectIdempotent(t.rows, [Test(j, Eq, Str(c.value))]);
      } else if t.kinds[j] != Int64 && c.operator == "ne" {
        SelectIdempotent(t.rows, [Test(j, Ne, Str(c.value))]);
      }
    }
  }

  /** filter_data is one selection by all the conditions' tests at once. */
  lemma {:induction false} FilterIsSelection(t: Table, conditions: seq<Condition>)
    requires |t.kinds| == |t.columns|
    ensures var r := ResolveAll(t.columns, t.kinds, conditions);
      Filter(t, conditions) == if r.Ok? then Ok(t.(rows := Select(t.rows, r.value))) else Err(r.error)
    decreases |conditions|
  {
    if conditions == [] {
      SelectNothing(t.rows);
    } else {
      ApplyConditionIsSelection(t, conditions[0]);
      var first := Resolve(t.columns, t.kinds, conditions[0]);
      if first.Ok? {
        var next := t.(rows := Select(t.rows, [first.value]));
        FilterIsSelection(next, conditions[1..]);
        var rest := ResolveAll(t.columns, t.kinds, conditions[1..]);
        if rest.Ok? {
          SelectComposes(t.rows, [first.value], rest.value);
        }
      }
    }
  }

  /** A row passes the resolved tests iff it meets each condition. */
  lemma PassesResolved(row: Row, columns: seq<string>, kinds: seq<Kind>, conditions: seq<Condition>)
    requires |kinds| == |columns|
    requires ResolveAll(columns, kinds, conditions).Ok?
    ensures PassesAll(row, ResolveAll(columns, kinds, conditions).value) <==> SatisfiesAll(row, columns, kinds, conditions)
  {
  }

  /**
   * The conditions are ANDed: on success the result is the input with
   * exactly the rows that meet every condition, in their original order and
   * multiplicity, under the same columns and dtypes. The call fails iff
   * some condition fails to resolve.
   */
  lemma FilterSemantics(t: Table, conditions: seq<Condition>)
    requires |t.kinds| == |t.columns|
    ensures Filter(t, conditions).Ok? <==>
      forall k :: 0 <= k < |conditions| ==> Resolve(t.columns, t.kinds, conditions[k]).Ok?
    ensures Filter(t, conditions).Ok? ==>
      var r := Filter(t, conditions).value;
      && r.columns == t.columns && r.kinds == t.kinds
      && IsSubsequence(r.rows, t.rows)
      && (forall row :: multiset(r.rows)[row] ==
            if SatisfiesAll(row, t.columns, t.kinds, conditions) then multiset(t.rows)[row] else 0)
      && (forall row :: row in r.rows <==> row in t.rows && SatisfiesAll(row, t.columns, t.kinds, conditions))
  {
    FilterIsSelection(t, conditions);
    var tests := ResolveAll(t.columns, t.kinds, conditions);
    if tests.Ok? {
      var r := Filter(t, conditions).value;
      SelectIsSubsequence(t.rows, tests.value);
      forall row
        ensures multiset(r.rows)[row] ==
          if SatisfiesAll(row, t.columns, t.kinds, conditions) then multiset(t.rows)[row] else 0
      {
        SelectCount(t.rows, tests.value, row);
        PassesResolved(row, t.columns, t.kinds, conditions);
      }
      forall row
        ensures row in r.rows <==> row in t.rows && SatisfiesAll(row, t.columns, t.kinds, conditions)
      {
        assert multiset(r.rows)[row] ==
          if SatisfiesAll(row, t.columns, t.kinds, conditions) then multiset(t.rows)[row] else 0;
      }
    }
  }

  lemma {:induction false} ResolveAllFirstError(columns: seq<string>, kinds: seq<Kind>, conditions: seq<Condition>, i: nat)
    requires |kinds| == |columns|
    requires i < |conditions|
    requires Resolve(columns, kinds, conditions[i]).Err?
    requires forall k :: 0 <= k < i ==> Resolve(columns, kinds, conditions[k]).Ok?
    ensures ResolveAll(columns, kinds, conditions) == Err(Resolve(columns, kinds, conditions[i]).error)
    decreases i
  {
    if i > 0 {
      assert Resolve(columns, kinds, conditions[0]).Ok?;
      ResolveAllFirstError(columns, kinds, conditions[1..], i - 1);
    }
  }

  /**
   * A failure anywhere in the list rejects the whole call, and the error
   * reported is that of the first condition that fails: no partial result.
   */
  lemma FilterReportsFirstFailure(t: Table, conditions: seq<Condition>, i: nat)
    requires |t.kinds| == |t.columns|
    requires i < |conditions|
    requires Resolve(t.columns, t.kinds, conditions[i]).Err?
    requires forall k :: 0 <= k < i ==> Resolve(t.columns, t.kinds, conditions[k]).Ok?
    ensures Filter(t, conditions) == Err(Resolve(t.columns, t.kinds, conditions[i]).error)
  {
    FilterIsSelection(t, conditions);
    ResolveAllFirstError(t.columns, t.kinds, conditions, i);
  }

  /** A condition on a missing column means no result at all. */
  lemma UnknownColumnRejects(t: Table, conditions: seq<Condition>, i: nat)
    requires |t.kinds| == |t.columns|
    requires i < |conditions| && conditions[i].column !in t.columns
    ensures Filter(t, conditions).Err?
    ensures (forall k :: 0 <= k < i ==> Resolve(t.columns, t.kinds, conditions[k]).Ok?) ==>
      Filter(t, conditions) == Err(UnknownColumn(conditions[i].column))
  {
    FilterSemantics(t, conditions);
    if forall k :: 0 <= k < i ==> Resolve(t.columns, t.kinds, conditions[k]).Ok? {
      FilterReportsFirstFailure(t, conditions, i);
    }
  }
}
