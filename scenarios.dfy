/**
 * Worked examples on the table `a,b / 1,x / 2,y / 3,z`, where `a` is an
 * int64 column and `b` a text column.
 */
module Scenarios {
  import opened Common
  import opened Decimal
  import opened Frames
  import opened Filtering
  import opened Sorting

  const R1: Row := [Num(1), Str("x")]
  const R2: Row := [Num(2), Str("y")]
  const R3: Row := [Num(3), Str("z")]
  const T: Table := Table(["a", "b"], [Int64, Text], [R1, R2, R3])

  lemma ParsesOne()
    ensures ParseInt("1") == Some(1)
  {
    assert DigitsValue("1") == DigitsValue("1"[..0]) * 10 + 1;
  }

  /** `a > 1` keeps the last two rows. */
  lemma GreaterThanOne()
    ensures Filter(T, [Condition("a", "gt", "1")]) == Ok(T.(rows := [R2, R3]))
  {
    ParsesOne();
    var test := Test(0, Gt, Num(1));
    assert Resolve(T.columns, T.kinds, Condition("a", "gt", "1")) == Ok(test);
    FilterIsSelection(T, [Condition("a", "gt", "1")]);
    assert Select([R3], [test]) == [R3];
    assert Select([R2, R3], [test]) == [R2, R3];
    assert !PassesAll(R1, [test]);
    assert Select([R1, R2, R3], [test]) == [R2, R3];
  }

  /** An ordering operator on the text column is rejected. */
  lemma OrderingOnTextRejected()
    ensures Filter(T, [Condition("b", "gt", "1")]) == Err(UnsupportedOperator("gt"))
    ensures Message(Filter(T, [Condition("b", "gt", "1")]).error) == "Unsupported operator: gt"
  {
  }

  /** Equality on the text column compares the strings. */
  lemma TextEquality()
    ensures Filter(T, [Condition("b", "eq", "y")]) == Ok(T.(rows := [R2]))
  {
    var c := Condition("b", "eq", "y");
    var test := Test(1, Eq, Str("y"));
    assert IndexOf(T.columns, "b") == 1;
    assert "x" != "y" && "z" != "y" by { assert "x"[0] != "y"[0] && "z"[0] != "y"[0]; }
    assert !Passes(R1, test) && !Passes(R3, test) && [test][0] == test;
    assert !PassesAll(R1, [test]) && PassesAll(R2, [test]) && !PassesAll(R3, [test]);
    assert Select([R3], [test]) == [];
    assert Select([R2, R3], [test]) == [R2];
    assert Select([R1, R2, R3], [test]) == [R2];
    assert Select([R2], [test]) == [R2];
    assert ApplyCondition(T, c) == Ok(T.(rows := [R2]));
  }

  /** "3.5" is not a value of the int64 column, whatever the operator. */
  lemma FractionOnIntegerColumnRejected(operator: string)
    ensures Filter(T, [Condition("a", operator, "3.5")]) == Err(InvalidValue("3.5", "a"))
    ensures Message(Filter(T, [Condition("a", operator, "3.5")]).error) == "Invalid value '3.5' for column 'a'"
  {
    FractionIsNotInteger();
    assert IndexOf(T.columns, "a") == 0;
    var c := Condition("a", operator, "3.5");
    assert ApplyCondition(T, c) == Err(InvalidValue("3.5", "a"));
    assert Filter(T, [c]) == Err(InvalidValue("3.5", "a"));
    InvalidValueText();
  }

  /** The text `filter_data` gives for "3.5" on column `a`. */
  lemma InvalidValueText()
    ensures Message(InvalidValue("3.5", "a")) == "Invalid value '3.5' for column 'a'"
  {
  }

  /** Sorting by `a` descending reverses the rows. */
  lemma DescendingByA()
    ensures SortRows([R1, R2, R3], [SortKey(0, false)]) == [R3, R2, R1]
  {
    var keys := [SortKey(0, false)];
    assert CompareOnKey(R2, R3, keys[0]) == Greater;
    assert CompareOnKey(R1, R2, keys[0]) == Greater;
    assert CompareOnKey(R1, R3, keys[0]) == Greater;
    assert [R3][1..] == [];
    assert SortRows([R3], keys) == [R3];
    assert Insert(R2, [R3], keys) == [R3, R2];
    assert [R2, R3][1..] == [R3];
    assert SortRows([R2, R3], keys) == [R3, R2];
    assert Insert(R1, [R2], keys) == [R2, R1];
    assert [R3, R2][1..] == [R2];
    assert Insert(R1, [R3, R2], keys) == [R3, R2, R1];
    assert [R1, R2, R3][1..] == [R2, R3];
  }

  /** Filtering `a > 1` and then sorting `a` descending. */
  lemma FilterThenSort()
    ensures SortRows(Filter(T, [Condition("a", "gt", "1")]).value.rows, [SortKey(0, false)]) == [R3, R2]
  {
    GreaterThanOne();
    var keys := [SortKey(0, false)];
    assert CompareRows(R2, R3, keys) == Greater;
    assert SortRows([R3], keys) == [R3];
    assert SortRows([R2, R3], keys) == Insert(R2, [R3], keys);
  }
}
