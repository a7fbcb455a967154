/** `Descriptive`: a wrapper around one table with summary strings, row filtering, column
    removal and selection of the categorical columns. */
module Descriptive {
  import opened Wrappers
  import opened Text
  import opened Frames

  /** What the constructor may be given: a dataframe, or any other value. */
  datatype Input = Frame(table: Table) | NotFrame

  const NotFrameMessage := "Input data must be a pandas DF"

  /** `select_dtypes(['object', 'bool', 'category', 'integer'])` */
  const CategoricalKinds: set<DType> := {Object, Boolean, Category, Int64}
  /** `select_dtypes(['bool', 'category', 'object'])` */
  const FrequencyKinds: set<DType> := {Boolean, Category, Object}

  /** `f"Has {rows} rows and {cols} columns \n"` */
  function CountsMessage(rows: nat, cols: nat): (m: string)
    ensures |m| >= 14 && m[..4] == "Has " && m[|m| - 10..] == " columns \n"
  {
    "Has " + NatToString(rows) + " rows and " + NatToString(cols) + " columns \n"
  }

  /** What follows the row count in the message. */
  function AfterRows(cols: nat): (x: string)
    ensures x != [] && !IsDigit(x[0])
  {
    " rows and " + NatToString(cols) + " columns \n"
  }

  lemma CountsMessageParts(rows: nat, cols: nat)
    ensures CountsMessage(rows, cols)[4..] == NatToString(rows) + AfterRows(cols)
    ensures AfterRows(cols)[10..] == NatToString(cols) + " columns \n"
  {
    var tail := NatToString(cols) + " columns \n";
    assert AfterRows(cols) == " rows and " + tail;
    var rest := NatToString(rows) + AfterRows(cols);
    assert CountsMessage(rows, cols) == "Has " + rest;
  }

  /** The counts can be read back from the message: different shapes give different messages. */
  lemma CountsMessageInjective(r1: nat, c1: nat, r2: nat, c2: nat)
    requires CountsMessage(r1, c1) == CountsMessage(r2, c2)
    ensures r1 == r2 && c1 == c2
  {
    CountsMessageParts(r1, c1);
    CountsMessageParts(r2, c2);
    DigitPrefixUnique(NatToString(r1), AfterRows(c1), NatToString(r2), AfterRows(c2));
    NatToStringInjective(r1, r2);
    DigitPrefixUnique(NatToString(c1), " columns \n", NatToString(c2), " columns \n");
    NatToStringInjective(c1, c2);
  }

  /** A concrete message. */
  lemma CountsMessageExample()
    ensures CountsMessage(53940, 10) == "Has " + "53940" + " rows and " + "10" + " columns \n"
  {
    assert NatToString(5) == "5";
    assert NatToString(53) == "53";
    assert NatToString(539) == "539";
    assert NatToString(5394) == "5394";
    assert NatToString(53940) == "53940";
    assert NatToString(10) == "10";
  }

  /** The rows of `rows` whose cell in column `j` is the text `cat`, in their order. */
  function RowsWhere(rows: seq<seq<Value>>, j: nat, cat: string): (r: seq<seq<Value>>)
    requires forall k | 0 <= k < |rows| :: j < |rows[k]|
    ensures |r| <= |rows| && forall k | 0 <= k < |r| :: |r[k]| > j && r[k][j] == Text(cat)
  {
    if rows == [] then []
    else (if rows[0][j] == Text(cat) then [rows[0]] else []) + RowsWhere(rows[1..], j, cat)
  }

  /** The kept rows are exactly the rows whose cell in column `j` is `cat`. */
  lemma {:induction false} RowsWhereMembers(rows: seq<seq<Value>>, j: nat, cat: string)
    requires forall k | 0 <= k < |rows| :: j < |rows[k]|
    ensures forall row :: row in RowsWhere(rows, j, cat) <==> row in rows && row[j] == Text(cat)
  {
    if rows != [] {
      RowsWhereMembers(rows[1..], j, cat);
      assert rows == [rows[0]] + rows[1..];
    }
  }

  /** Filtering keeps the width of the rows. */
  lemma {:induction false} RowsWhereWidth(rows: seq<seq<Value>>, j: nat, cat: string, n: nat)
    requires forall k | 0 <= k < |rows| :: j < |rows[k]| == n
    ensures forall k | 0 <= k < |RowsWhere(rows, j, cat)| :: |RowsWhere(rows, j, cat)[k]| == n
  {
    if rows != [] {
      RowsWhereWidth(rows[1..], j, cat, n);
    }
  }

  /** Filtering the filtered rows again keeps them all. */
  lemma {:induction false} RowsWhereIdempotent(rows: seq<seq<Value>>, j: nat, cat: string)
    requires forall k | 0 <= k < |rows| :: j < |rows[k]|
    ensures RowsWhere(RowsWhere(rows, j, cat), j, cat) == RowsWhere(rows, j, cat)
  {
    if rows != [] {
      RowsWhereIdempotent(rows[1..], j, cat);
      var rest := RowsWhere(rows[1..], j, cat);
      if rows[0][j] == Text(cat) {
        var once := [rows[0]] + rest;
        assert RowsWhere(rows, j, cat) == once;
        assert once[0] == rows[0] && once[1..] == rest;
        assert RowsWhere(once, j, cat) == [rows[0]] + RowsWhere(rest, j, cat);
      } else {
        assert RowsWhere(rows, j, cat) == rest;
      }
    }
  }

  /** The rows kept and the rows dropped together are the original rows, counted with
      multiplicity: nothing is invented, duplicated or lost among the matches. */
  lemma {:induction false} RowsWhereSplit(rows: seq<seq<Value>>, j: nat, cat: string)
    requires forall k | 0 <= k < |rows| :: j < |rows[k]|
    ensures multiset(RowsWhere(rows, j, cat)) + multiset(RowsWhereNot(rows, j, cat)) == multiset(rows)
  {
    if rows != [] {
      RowsWhereSplit(rows[1..], j, cat);
      assert rows == [rows[0]] + rows[1..];
    }
  }

  /** The rows whose cell in column `j` is not the text `cat`. */
  function RowsWhereNot(rows: seq<seq<Value>>, j: nat, cat: string): seq<seq<Value>>
    requires forall k | 0 <= k < |rows| :: j < |rows[k]|
  {
    if rows == [] then []
    else (if rows[0][j] == Text(cat) then [] else [rows[0]]) + RowsWhereNot(rows[1..], j, cat)
  }

  /** `data_filter(col, cat)` on a table: an unknown column, then an absent value, raise;
      otherwise the matching rows, every column kept. */
  function FilterByValue(t: Table, col: string, cat: string): (r: Result<Table>)
    requires WellFormed(t)
    ensures col !in t.names ==> r == Err(ValueError("No columns with that name!"))
    ensures r.Ok? ==> col in t.names && r.value.names == t.names && r.value.dtypes == t.dtypes && WellFormed(r.value)
    ensures r.Ok? ==> r.value.rows == RowsWhere(t.rows, IndexOf(t.names, col), cat)
    ensures r.Ok? ==> |r.value.rows| >= 1 &&
                      forall row | row in r.value.rows :: row in t.rows && row[IndexOf(t.names, col)] == Text(cat)
    ensures col in t.names ==>
              (r == Err(ValueError("No values with that name in here!")) <==>
               forall k | 0 <= k < |t.rows| :: t.rows[k][IndexOf(t.names, col)] != Text(cat))
  {
    if col !in t.names then Err(ValueError("No columns with that name!"))
    else
      var j := IndexOf(t.names, col);
      var kept := RowsWhere(t.rows, j, cat);
      RowsWhereMembers(t.rows, j, cat);
      if kept == [] then
        NoMatchWhenNothingKept(t.rows, j, cat);
        Err(ValueError("No values with that name in here!"))
      else
        assert kept[0] in kept;
        RowsWhereWidth(t.rows, j, cat, |t.names|);
        Ok(Table(t.names, t.dtypes, kept))
  }

  lemma NoMatchWhenNothingKept(rows: seq<seq<Value>>, j: nat, cat: string)
    requires forall k | 0 <= k < |rows| :: j < |rows[k]|
    requires RowsWhere(rows, j, cat) == []
    ensures forall k | 0 <= k < |rows| :: rows[k][j] != Text(cat)
  {
    forall k | 0 <= k < |rows| ensures rows[k][j] != Text(cat) {
      assert rows[k] in rows;
    }
  }

  /** Filtering a filtered table on the same column and value gives it back. */
  lemma DataFilterIdempotent(t: Table, col: string, cat: string)
    requires WellFormed(t) && FilterByValue(t, col, cat).Ok?
    ensures FilterByValue(FilterByValue(t, col, cat).value, col, cat) == FilterByValue(t, col, cat)
  {
    var j := IndexOf(t.names, col);
    RowsWhereIdempotent(t.rows, j, cat);
    var once := FilterByValue(t, col, cat).value;
    assert once.rows == RowsWhere(t.rows, j, cat);
    assert once.rows[0] in once.rows;
  }

  /** `drop(col, axis=1)`: the table without the column; an absent name raises `KeyError`. */
  function DropColumn(t: Table, col: string): (r: Result<Table>)
    requires Valid(t)
    ensures r.Err? <==> col !in t.names
    ensures r.Err? ==> r.error == KeyError(col)
    ensures r.Ok? ==> Valid(r.value) && r.value.names == DropIn(t.names, [col]) &&
                      (forall x :: x in r.value.names <==> x in t.names && x != col) &&
                      |r.value.rows| == |t.rows|
    ensures r.Ok? ==> forall k, j | 0 <= k < |t.rows| && 0 <= j < |r.value.names| ::
                        r.value.rows[k][j] == t.rows[k][IndexOf(t.names, r.value.names[j])]
  {
    if col !in t.names then Err(KeyError(col))
    else
      DropInDistinct(t.names, [col]);
      var s := Select(t, DropIn(t.names, [col]));
      Ok(s)
  }

  /** Dropping a column keeps the other columns in their order, each with its dtype. */
  lemma DropColumnKeepsOthers(t: Table, col: string, j: nat)
    requires Valid(t) && col in t.names && j < |t.names| && t.names[j] != col
    ensures var r := DropColumn(t, col).value;
            t.names[j] in r.names && DTypeOf(r, t.names[j]) == t.dtypes[j]
  {
    var r := DropColumn(t, col).value;
    DropInDistinct(t.names, [col]);
    var i := IndexOf(r.names, t.names[j]);
    IndexOfDistinct(t.names, j);
    assert r.dtypes[i] == DTypeOf(t, r.names[i]);
  }

  /** The categorical part of a table: the object, bool, category and integer columns,
      in table order, with every row. */
  function CategoricalColumnsOf(t: Table): (r: Table)
    requires Valid(t)
    ensures Valid(r) && |r.rows| == |t.rows|
    ensures forall x :: x in r.names <==> x in t.names && DTypeOf(t, x) in CategoricalKinds
    ensures forall j | 0 <= j < |r.names| :: r.dtypes[j] == DTypeOf(t, r.names[j])
    ensures r.names == ColumnsOfKind(t, CategoricalKinds) && InTableOrder(t.names, r.names)
    ensures forall k, j | 0 <= k < |r.rows| && 0 <= j < |r.names| ::
              r.rows[k][j] == t.rows[k][IndexOf(t.names, r.names[j])]
  {
    ColumnsOfKindSpec(t, CategoricalKinds);
    Select(t, ColumnsOfKind(t, CategoricalKinds))
  }

  /** The check of `frequency_table`: the name must be a bool, category or object column. */
  function FrequencyTableCheck(t: Table, columnName: string): (r: Outcome)
    requires Valid(t)
    ensures r == Pass <==> columnName in t.names && DTypeOf(t, columnName) in FrequencyKinds
    ensures r.Fail? ==> r.error == ValueError(columnName + " is not a string or not in features")
  {
    ColumnsOfKindSpec(t, FrequencyKinds);
    if columnName !in ColumnsOfKind(t, FrequencyKinds) then Fail(ValueError(columnName + " is not a string or not in features"))
    else Pass
  }

  /** An integer column is categorical, yet `frequency_table` refuses it. */
  lemma IntegerColumnsAreCategoricalButNotFrequency(t: Table, name: string)
    requires Valid(t) && name in t.names && DTypeOf(t, name) == Int64
    ensures name in CategoricalColumnsOf(t).names
    ensures FrequencyTableCheck(t, name).Fail?
  {
  }

  /** The first name in `names` that is not in `pool`. */
  function FirstMissing(names: seq<string>, pool: seq<string>): (r: Option<nat>)
    ensures r.None? <==> forall x | x in names :: x in pool
    ensures r.Some? ==> r.value < |names| && names[r.value] !in pool &&
                        forall k | 0 <= k < r.value :: names[k] in pool
  {
    if names == [] then None
    else if names[0] !in pool then Some(0)
    else match FirstMissing(names[1..], pool)
      case None => None
      case Some(k) => Some(k + 1)
  }

  /** The lookups of `cross_tabs`: each index name, then each column name, is looked up among
      the categorical columns; the first one missing raises `KeyError`. The cross tabulation
      itself is left to the library. */
  function CrossTabsCheck(t: Table, indexNames: seq<string>, columnsNames: seq<string>): (r: Outcome)
    requires Valid(t)
    ensures r == Pass <==> forall x | x in indexNames + columnsNames :: x in t.names && DTypeOf(t, x) in CategoricalKinds
    ensures r.Fail? ==> var k := FirstMissing(indexNames + columnsNames, CategoricalColumnsOf(t).names);
                        k.Some? && r.error == KeyError((indexNames + columnsNames)[k.value])
  {
    var cat := CategoricalColumnsOf(t).names;
    match FirstMissing(indexNames + columnsNames, cat)
    case None => Pass
    case Some(k) => Fail(KeyError((indexNames + columnsNames)[k]))
  }

  /** A `Descriptive` object over one table. */
  class Descriptive {
    var data: Table

    predicate Valid() reads this {
      Frames.Valid(data)
    }

    constructor (t: Table)
      requires Frames.Valid(t)
      ensures data == t && Valid()
    {
      data := t;
    }

    /** `Descriptive(data)`: a dataframe gives an object over it; anything else raises. */
    static method Create(x: Input) returns (r: Result<Descriptive>)
      requires x.Frame? ==> Frames.Valid(x.table)
      ensures x.NotFrame? ==> r == Err(ValueError(NotFrameMessage))
      ensures x.Frame? ==> r.Ok? && fresh(r.value) && r.value.data == x.table && r.value.Valid()
    {
      if x.NotFrame? {
        return Err(ValueError(NotFrameMessage));
      }
      var d := new Descriptive(x.table);
      return Ok(d);
    }

    /** `check_rows_and_columns_counts` */
    function CheckRowsAndColumnsCounts(): (m: string)
      reads this
      ensures m == CountsMessage(|data.rows|, |data.names|)
      ensures m[4..] == NatToString(|data.rows|) + AfterRows(|data.names|)
    {
      CountsMessageParts(|data.rows|, |data.names|);
      CountsMessage(|data.rows|, |data.names|)
    }

    /** `data_filter(col, cat)`: the object itself keeps its table. */
    function DataFilter(col: string, cat: string): (r: Result<Table>)
      requires Valid()
      reads this
      ensures r == FilterByValue(data, col, cat)
      ensures r.Ok? ==> r.value.names == data.names && forall row | row in r.value.rows :: row in data.rows
    {
      FilterByValue(data, col, cat)
    }

    /** `data_drop(col)`: the object's table becomes the table without the column, which is
        returned; an absent name raises and leaves the table as it was. */
    method DataDrop(col: string) returns (r: Result<Table>)
      requires Valid()
      modifies this
      ensures Valid()
      ensures r == DropColumn(old(data), col)
      ensures data == if r.Ok? then r.value else old(data)
    {
      r := DropColumn(data, col);
      if r.Ok? {
        data := r.value;
      }
    }

    /** `categorical_data()` */
    function CategoricalData(): (r: Table)
      requires Valid()
      reads this
      ensures r == CategoricalColumnsOf(data)
      ensures Frames.Valid(r) && |r.rows| == |data.rows| && InTableOrder(data.names, r.names)
    {
      CategoricalColumnsOf(data)
    }
  }

  /** Dropping two different columns one after the other leaves the same table whichever
      is dropped first. */
  lemma DropColumnsCommute(t: Table, a: string, b: string)
    requires Valid(t) && a in t.names && b in t.names && a != b
    ensures var ta := DropColumn(t, a).value;
            var tb := DropColumn(t, b).value;
            DropColumn(ta, b).Ok? && DropColumn(tb, a).Ok? &&
            DropColumn(ta, b).value.names == DropColumn(tb, a).value.names
  {
    var ta := DropColumn(t, a).value;
    var tb := DropColumn(t, b).value;
    assert b in ta.names && a in tb.names;
    DropInTwice(t.names, a, b);
    DropInTwice(t.names, b, a);
    DropInSamePool(t.names, [a, b], [b, a]);
  }

  lemma {:induction false} DropInTwice(s: seq<string>, a: string, b: string)
    ensures DropIn(DropIn(s, [a]), [b]) == DropIn(s, [a, b])
  {
    if s != [] {
      var t := s[1..];
      DropInTwice(t, a, b);
      if s[0] == a {
        assert DropIn(s, [a]) == DropIn(t, [a]);
        assert DropIn(s, [a, b]) == DropIn(t, [a, b]);
      } else {
        var once := DropIn(s, [a]);
        assert once == [s[0]] + DropIn(t, [a]);
        assert once[0] == s[0] && once[1..] == DropIn(t, [a]);
      }
    }
  }
}
