/** The descriptive handlers of the API: each takes a `Descriptive` object and turns what it
    computes into plain dictionaries and lists, after checking the names it is given. */
module ApiDescriptiveHandlers {
  import opened Wrappers
  import opened Frames
  import Descriptive

  /** `get_descriptive_instance(df)`: an object over a copy of the table. Tables are values,
      so nothing the object later does to its table reaches the caller's. */
  method GetDescriptiveInstance(t: Table) returns (d: Descriptive.Descriptive)
    requires Frames.Valid(t)
    ensures fresh(d) && d.data == t && d.Valid()
  {
    d := new Descriptive.Descriptive(t);
  }

  // ---------------------------------------------------------------- shape

  /** `handle_get_shape`: `{"rows": ..., "columns": ...}`. */
  function HandleGetShape(d: Descriptive.Descriptive): (r: map<string, nat>)
    reads d
    ensures r.Keys == {"rows", "columns"}
    ensures r["rows"] == |d.data.rows| && r["columns"] == |d.data.names|
  {
    map["rows" := |d.data.rows|, "columns" := |d.data.names|]
  }

  /** The shape dictionary and the counts message report the same numbers: two objects whose
      counts messages agree have the same shape. */
  lemma ShapeAgreesWithCountsMessage(d: Descriptive.Descriptive, e: Descriptive.Descriptive)
    requires d.CheckRowsAndColumnsCounts() == e.CheckRowsAndColumnsCounts()
    ensures HandleGetShape(d) == HandleGetShape(e)
  {
    Descriptive.CountsMessageInjective(|d.data.rows|, |d.data.names|, |e.data.rows|, |e.data.names|);
  }

  // ---------------------------------------------------------------- unique counts

  /** `select_dtypes(['category', 'int', 'object'])`: booleans are not among them. */
  const UniqueKinds: set<DType> := {Category, Int64, Object}

  /** `handle_get_unique_counts`: `{}` without such columns, otherwise each of them mapped to
      its number of distinct non-missing values. */
  function HandleGetUniqueCounts(d: Descriptive.Descriptive): (r: map<string, nat>)
    requires d.Valid()
    reads d
    ensures forall c :: c in r <==> c in d.data.names && DTypeOf(d.data, c) in UniqueKinds
    ensures forall c | c in r :: r[c] == NUnique(d.data, c)
    ensures r == map[] <==> forall c | c in d.data.names :: DTypeOf(d.data, c) !in UniqueKinds
  {
    var cols := ColumnsOfKind(d.data, UniqueKinds);
    ColumnsOfKindSpec(d.data, UniqueKinds);
    if cols == [] then map[]
    else
      assert cols[0] in cols;
      map c | c in cols :: NUnique(d.data, c)
  }

  /** The columns counted are the categorical columns other than the boolean ones. */
  lemma UniqueCountsAreCategoricalButNotBoolean(d: Descriptive.Descriptive, c: string)
    requires d.Valid()
    ensures c in HandleGetUniqueCounts(d) <==>
            c in d.CategoricalData().names && DTypeOf(d.data, c) != Boolean
  {
  }

  /** A set drawn from a sequence has no more elements than the sequence. */
  lemma {:induction false} SetOfSeqBounded(s: seq<Value>, keep: set<Value>)
    requires forall v | v in keep :: v in s
    ensures |keep| <= |s|
    decreases |s|
  {
    if s != [] {
      var rest := keep - {s[0]};
      forall v | v in rest ensures v in s[1..] {
        assert v in s && v != s[0];
      }
      SetOfSeqBounded(s[1..], rest);
      assert keep <= rest + {s[0]};
    } else {
      assert keep == {};
    }
  }

  /** No column holds more distinct values than the table has rows. */
  lemma UniqueCountsBounded(d: Descriptive.Descriptive)
    requires d.Valid()
    ensures forall c | c in HandleGetUniqueCounts(d) :: HandleGetUniqueCounts(d)[c] <= |d.data.rows|
  {
    forall c | c in HandleGetUniqueCounts(d) ensures NUnique(d.data, c) <= |d.data.rows| {
      var j := IndexOf(d.data.names, c);
      SetOfSeqBounded(Column(d.data, j), DistinctValues(d.data, j));
    }
  }

  // ---------------------------------------------------------------- frequency table

  function FrequencyNotFound(columnName: string): Error {
    ValueError("Column '" + columnName + "' not found in DataFrame for frequency table")
  }

  /** What `frequency_table(column=...)` raises: the method's parameter is `column_name`, and
      `column` is swallowed by its `**kwargs`. */
  const FrequencyCallError := TypeError("Descriptive.frequency_table() missing 1 required positional argument: 'column_name'")

  /** `handle_frequency_table` as written: an absent column raises `ValueError`; any other
      column reaches the call with the misspelt keyword, which raises `TypeError`. */
  function HandleFrequencyTableAsWritten(d: Descriptive.Descriptive, columnName: string): (r: Outcome)
    reads d
    ensures r.Fail?
    ensures r.error == if columnName in d.data.names then FrequencyCallError else FrequencyNotFound(columnName)
  {
    if columnName !in d.data.names then Fail(FrequencyNotFound(columnName))
    else Fail(FrequencyCallError)
  }

  /** `handle_frequency_table` with the column passed as `column_name`: the handler's check,
      then the check of `frequency_table`. The table itself is left to the library. */
  function HandleFrequencyTable(d: Descriptive.Descriptive, columnName: string): (r: Outcome)
    requires d.Valid()
    reads d
    ensures r == Pass <==> columnName in d.data.names && DTypeOf(d.data, columnName) in Descriptive.FrequencyKinds
    ensures columnName !in d.data.names ==> r == Fail(FrequencyNotFound(columnName))
    ensures columnName in d.data.names && r.Fail? ==>
              r.error == ValueError(columnName + " is not a string or not in features")
  {
    if columnName !in d.data.names then Fail(FrequencyNotFound(columnName))
    else Descriptive.FrequencyTableCheck(d.data, columnName)
  }

  /** Every column the frequency table accepts is refused by the handler as written, while the
      corrected handler lets it through; the two agree on absent columns. */
  lemma FrequencyHandlerRefusesEveryColumn(d: Descriptive.Descriptive, columnName: string)
    requires d.Valid()
    ensures columnName in d.data.names && DTypeOf(d.data, columnName) in Descriptive.FrequencyKinds ==>
              HandleFrequencyTable(d, columnName) == Pass &&
              HandleFrequencyTableAsWritten(d, columnName) == Fail(FrequencyCallError)
    ensures columnName !in d.data.names ==>
              HandleFrequencyTable(d, columnName) == HandleFrequencyTableAsWritten(d, columnName)
  {
  }

  // ---------------------------------------------------------------- cross tabulation

  function CrossTabsNotFound(name: string): Error {
    ValueError("Column '" + name + "' not found in DataFrame for crosstabs")
  }

  /** `handle_cross_tabs`: every index name and then every column name must be a column, the
      first one that is not raises `ValueError`; then `cross_tabs` looks the names up among the
      categorical columns. The cross tabulation itself is left to the library. */
  method HandleCrossTabs(d: Descriptive.Descriptive, indexNames: seq<string>, columnsNames: seq<string>)
    returns (r: Outcome)
    requires d.Valid()
    ensures var all := indexNames + columnsNames;
            var k := Descriptive.FirstMissing(all, d.data.names);
            (k.Some? ==> r == Fail(CrossTabsNotFound(all[k.value]))) &&
            (k.None? ==> r == Descriptive.CrossTabsCheck(d.data, indexNames, columnsNames))
    ensures r == Pass <==>
            forall x | x in indexNames + columnsNames :: x in d.data.names && DTypeOf(d.data, x) in Descriptive.CategoricalKinds
  {
    var all := indexNames + columnsNames;
    var lists := [indexNames, columnsNames];
    var li := 0;
    var base := 0;
    while li < |lists|
      invariant 0 <= li <= 2 && base == (if li == 0 then 0 else if li == 1 then |indexNames| else |all|)
      invariant forall p | 0 <= p < base :: all[p] in d.data.names
    {
      var nameList := lists[li];
      var ni := 0;
      while ni < |nameList|
        invariant 0 <= ni <= |nameList|
        invariant forall p | 0 <= p < base + ni :: all[p] in d.data.names
      {
        var name := nameList[ni];
        assert name == all[base + ni];
        if name !in d.data.names {
          var k := Descriptive.FirstMissing(all, d.data.names);
          assert k == Some(base + ni);
          return Fail(CrossTabsNotFound(name));
        }
        ni := ni + 1;
      }
      li := li + 1;
      base := base + |nameList|;
    }
    assert forall x | x in all :: x in d.data.names;
    r := Descriptive.CrossTabsCheck(d.data, indexNames, columnsNames);
  }

  // ---------------------------------------------------------------- filter

  /** One row of `to_dict('records')`: each column name mapped to its cell. */
  function Record(names: seq<string>, row: seq<Value>): (rec: map<string, Value>)
    requires |row| == |names| && Distinct(names)
    ensures forall x :: x in rec <==> x in names
    ensures forall j | 0 <= j < |names| :: rec[names[j]] == row[j]
  {
    forall j | 0 <= j < |names| ensures IndexOf(names, names[j]) == j {
      IndexOfDistinct(names, j);
    }
    map x | x in names :: row[IndexOf(names, x)]
  }

  /** `to_dict('records')`: one record per row, in row order. */
  function Records(t: Table): (r: seq<map<string, Value>>)
    requires Frames.Valid(t)
    ensures |r| == |t.rows| && forall k | 0 <= k < |t.rows| :: r[k] == Record(t.names, t.rows[k])
  {
    seq(|t.rows|, k requires 0 <= k < |t.rows| => Record(t.names, t.rows[k]))
  }

  /** `handle_get_data_filter`: the errors of `data_filter`, or the matching rows as records,
      each with every column and the filtered column holding the value. */
  function HandleGetDataFilter(d: Descriptive.Descriptive, col: string, cat: string): (r: Result<seq<map<string, Value>>>)
    requires d.Valid()
    reads d
    ensures col !in d.data.names ==> r == Err(ValueError("No columns with that name!"))
    ensures col in d.data.names ==>
              (r == Err(ValueError("No values with that name in here!")) <==>
               forall k | 0 <= k < |d.data.rows| :: d.data.rows[k][IndexOf(d.data.names, col)] != Text(cat))
    ensures r.Ok? ==> |r.value| >= 1 &&
                      forall rec | rec in r.value :: (forall x :: x in rec <==> x in d.data.names) && rec[col] == Text(cat)
    ensures r.Ok? ==> var f := Descriptive.FilterByValue(d.data, col, cat);
                      f.Ok? && r.value == Records(f.value)
  {
    match d.DataFilter(col, cat)
    case Err(e) => Err(e)
    case Ok(t) =>
      var j := IndexOf(d.data.names, col);
      var recs := Records(t);
      forall rec | rec in recs ensures rec[col] == Text(cat) {
        var k :| 0 <= k < |recs| && recs[k] == rec;
        assert t.rows[k] in t.rows;
      }
      Ok(recs)
  }
}
