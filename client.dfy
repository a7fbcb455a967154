/** The rules the two dashboard pages share: rebuilding a dataframe from a table the API sends
    in `split` form, turning categorical columns into text for display, the query parameters
    of a column selection, and the default position of a select box. */
module Client {
  import opened Wrappers
  import opened Frames
  import ApiUtils

  /** A select box choice that Python treats as true: one was made and it is not empty. */
  predicate Chosen(v: Option<string>) {
    v.Some? && v.value != ""
  }

  /** The response of the columns endpoint: each of its three lists may be missing, and
      `otherKeys` says whether the dictionary holds any other key. */
  datatype ColumnResponse = ColumnResponse(allColumns: Option<seq<string>>, numerical: Option<seq<string>>,
                                           categorical: Option<seq<string>>, otherKeys: bool)

  /** `if column_data:` on the parsed response: a dictionary is true when it has a key. */
  predicate NonEmpty(r: ColumnResponse) {
    r.otherKeys || r.allColumns.Some? || r.numerical.Some? || r.categorical.Some?
  }

  /** The three column lists a page keeps: all columns, the numerical and the categorical ones. */
  datatype ColumnLists = ColumnLists(all: seq<string>, numerical: seq<string>, categorical: seq<string>)

  /** `column_data.get(key, default)` */
  function GetOr(o: Option<seq<string>>, fallback: seq<string>): seq<string> {
    if o.Some? then o.value else fallback
  }

  // ---------------------------------------------------------------- query parameters

  /** A query parameter: one value, or a list sent as repeated values. */
  datatype QueryValue = One(s: string) | Many(items: seq<string>)

  /** `if include: q["include_columns"] = include`, then the same for `exclude`. */
  function ColumnQuery(includeColumns: seq<string>, excludeColumns: seq<string>): (q: map<string, QueryValue>)
    ensures forall k | k in q :: k == "include_columns" || k == "exclude_columns"
  {
    var q := if includeColumns != [] then map["include_columns" := Many(includeColumns)] else map[];
    if excludeColumns != [] then q["exclude_columns" := Many(excludeColumns)] else q
  }

  /** What the API receives for a list parameter: the list, or `None` when it was not sent. */
  function Received(q: map<string, QueryValue>, key: string): Option<seq<string>> {
    if key in q && q[key].Many? then Some(q[key].items) else None
  }

  /** A selection reaches the API exactly when it is not empty; an empty include list is
      therefore never sent, and with both selections empty the API shapes nothing. */
  lemma ColumnQueryReceived(includeColumns: seq<string>, excludeColumns: seq<string>, base: Table)
    requires Frames.Valid(base)
    ensures Received(ColumnQuery(includeColumns, excludeColumns), "include_columns") == if includeColumns == [] then None else Some(includeColumns)
    ensures Received(ColumnQuery(includeColumns, excludeColumns), "exclude_columns") == if excludeColumns == [] then None else Some(excludeColumns)
    ensures includeColumns == [] && excludeColumns == [] ==>
              ApiUtils.GetShapedDataframe(base, Received(ColumnQuery(includeColumns, excludeColumns), "include_columns"),
                                          Received(ColumnQuery(includeColumns, excludeColumns), "exclude_columns")) == base
  {
  }

  // ---------------------------------------------------------------- select boxes

  /** The default position of a select box: where `preferred` first occurs among the options,
      or 0 when it does not occur. */
  function PreferredIndex(options: seq<string>, preferred: string): (i: nat)
    ensures preferred in options ==> i < |options| && options[i] == preferred &&
                                     forall k | 0 <= k < i :: options[k] != preferred
    ensures preferred !in options ==> i == 0
  {
    if preferred in options then IndexOf(options, preferred) else 0
  }

  // ---------------------------------------------------------------- the index of a split table

  /** A label of the index as JSON carries it: a scalar, or a list (a tuple before encoding). */
  datatype IndexEntry = Scalar(v: Value) | Listed(items: seq<Value>)

  /** A label once lists are turned back into tuples. */
  datatype Label = Atom(v: Value) | Tuple(items: seq<Value>)

  /** `tuple(item) if isinstance(item, list) else item` */
  function Relabel(e: IndexEntry): Label {
    match e
    case Scalar(v) => Atom(v)
    case Listed(items) => Tuple(items)
  }

  /** The processed index: every list entry becomes a tuple, every other entry stays. */
  function ProcessedIndex(entries: seq<IndexEntry>): (labels: seq<Label>)
    ensures |labels| == |entries|
    ensures forall i | 0 <= i < |entries| :: labels[i] == Relabel(entries[i])
  {
    seq(|entries|, i requires 0 <= i < |entries| => Relabel(entries[i]))
  }

  /** How `to_dict('split')` and JSON carry an index label: a tuple becomes a list. */
  function Encode(l: Label): IndexEntry {
    match l
    case Atom(v) => Scalar(v)
    case Tuple(items) => Listed(items)
  }

  function EncodeIndex(labels: seq<Label>): (entries: seq<IndexEntry>)
    ensures |entries| == |labels| && forall i | 0 <= i < |labels| :: entries[i] == Encode(labels[i])
  {
    seq(|labels|, i requires 0 <= i < |labels| => Encode(labels[i]))
  }

  /** Decoding gives back the labels the API encoded, tuples included. */
  lemma ProcessedIndexRoundTrip(labels: seq<Label>)
    ensures ProcessedIndex(EncodeIndex(labels)) == labels
  {
    var back := ProcessedIndex(EncodeIndex(labels));
    assert forall i | 0 <= i < |labels| :: back[i] == Relabel(Encode(labels[i])) == labels[i];
  }

  /** The `index_level_names` argument: absent, a list of names, or a single string. */
  datatype LevelNames = NoNames | NameList(names: seq<string>) | NameText(name: string)

  /** The name of a single-level index: the only name of a one-element list, or the string;
      no name otherwise. */
  function SingleName(n: LevelNames): (r: Option<string>)
    ensures r.Some? <==> (n.NameList? && |n.names| == 1) || n.NameText?
    ensures r.Some? ==> r.value == if n.NameText? then n.name else n.names[0]
  {
    match n
    case NameList(names) => if names != [] && |names| == 1 then Some(names[0]) else None
    case NameText(name) => Some(name)
    case NoNames => None
  }

  /** The index given to the dataframe: none (the default positional one applies), an empty
      one, a single-level one with an optional name, or a multi-level one. */
  datatype Index =
    | DefaultIndex
    | EmptyIndex
    | Flat(labels: seq<Label>, name: Option<string>)
    | Multi(labels: seq<Label>, names: LevelNames)

  /** The index reconstruction: the first processed entry decides between a multi-level and a
      single-level index; without entries, an empty index only when there is no data. */
  function ReconstructIndex(entries: seq<IndexEntry>, data: seq<seq<Value>>, names: LevelNames): (ix: Index)
    ensures entries == [] ==> ix == if data == [] then EmptyIndex else DefaultIndex
    ensures entries != [] ==> (ix.Multi? <==> entries[0].Listed?) && (ix.Multi? || ix.Flat?)
    ensures ix.Multi? ==> ix.labels == ProcessedIndex(entries) && ix.names == names
    ensures ix.Flat? ==> ix.labels == ProcessedIndex(entries) && ix.name == SingleName(names)
  {
    if entries != [] then
      var labels := ProcessedIndex(entries);
      if labels != [] && labels[0].Tuple? then Multi(labels, names)
      else Flat(labels, SingleName(names))
    else if data == [] then EmptyIndex
    else DefaultIndex
  }

  // ---------------------------------------------------------------- the split response

  /** One key of the response dictionary: missing, `null`, or given. */
  datatype Field<T> = Absent | Null | Given(value: T)

  /** `response.get(key, [])` read as a list; `None` for `null`. */
  function ListOr<T>(f: Field<seq<T>>): Option<seq<T>> {
    match f
    case Absent => Some([])
    case Null => None
    case Given(v) => Some(v)
  }

  /** A table in `split` form; `otherKeys` says whether the dictionary holds any other key. */
  datatype SplitResponse = SplitResponse(index: Field<seq<IndexEntry>>, columns: Field<seq<string>>,
                                         data: Field<seq<seq<Value>>>, otherKeys: bool)

  /** The guard of the decoder: a non-empty dictionary none of whose three keys is `null`. */
  predicate Complete(r: SplitResponse) {
    (r.otherKeys || !r.index.Absent? || !r.columns.Absent? || !r.data.Absent?) &&
    !r.index.Null? && !r.columns.Null? && !r.data.Null?
  }

  /** What `pd.DataFrame(data=..., index=..., columns=...)` accepts: one cell per column in
      every row, and one label per row in a given index. */
  predicate Constructible(ix: Index, columns: seq<string>, data: seq<seq<Value>>) {
    (forall k | 0 <= k < |data| :: |data[k]| == |columns|) &&
    ((ix.Flat? || ix.Multi?) ==> |ix.labels| == |data|)
  }

  /** The dtype pandas gives a column of JSON values: integers give `int64`, integers and
      floats `float64`, booleans `bool`, anything else (an empty column too) `object`. */
  function Inferred(cells: seq<Value>): DType {
    if cells != [] && forall v | v in cells :: v.Int? then Int64
    else if cells != [] && forall v | v in cells :: v.Int? || v.Float? then Float64
    else if cells != [] && forall v | v in cells :: v.Flag? then Boolean
    else Object
  }

  /** The dataframe built from the columns and rows of the response. */
  function Built(columns: seq<string>, data: seq<seq<Value>>): (t: Table)
    requires forall k | 0 <= k < |data| :: |data[k]| == |columns|
    ensures WellFormed(t) && t.names == columns && t.rows == data
  {
    Table(columns, seq(|columns|, j requires 0 <= j < |columns| =>
                         Inferred(seq(|data|, k requires 0 <= k < |data| => data[k][j]))), data)
  }

  // ---------------------------------------------------------------- stringification

  /** Whether `astype(str)` on `col` reaches column `j`: it has that name and, when empty
      columns are skipped, the table has a row. */
  predicate Converts(t: Table, j: nat, cols: seq<string>, skipEmpty: bool)
    requires j < |t.names|
  {
    t.names[j] in cols && (!skipEmpty || |t.rows| > 0)
  }

  /** `df[col] = df[col].astype(str)`, every column named `col` included; with `skipEmpty`
      an empty column is left as it is. */
  function AsStr(t: Table, col: string, skipEmpty: bool): (r: Table)
    requires WellFormed(t)
    ensures WellFormed(r) && r.names == t.names && |r.rows| == |t.rows|
  {
    if skipEmpty && |t.rows| == 0 then t
    else
      Table(t.names,
            seq(|t.names|, j requires 0 <= j < |t.names| => if t.names[j] == col then Object else t.dtypes[j]),
            seq(|t.rows|, k requires 0 <= k < |t.rows| =>
                  seq(|t.names|, j requires 0 <= j < |t.names| =>
                        if t.names[j] == col then Value.Text(Show(t.rows[k][j])) else t.rows[k][j])))
  }

  /** The table after converting the columns `cols` one after the other. */
  function Stringified(t: Table, cols: seq<string>, skipEmpty: bool): (r: Table)
    requires WellFormed(t)
    ensures WellFormed(r) && r.names == t.names && |r.rows| == |t.rows|
    decreases |cols|
  {
    if cols == [] then t
    else AsStr(Stringified(t, cols[..|cols| - 1], skipEmpty), cols[|cols| - 1], skipEmpty)
  }

  /** Converting is cell by cell: a converted cell holds the text of the original cell, in a
      column of dtype `object`, and every other cell and dtype is kept. Converting a column
      twice is converting it once. */
  lemma {:induction false} StringifiedCells(t: Table, cols: seq<string>, skipEmpty: bool)
    requires WellFormed(t)
    ensures var r := Stringified(t, cols, skipEmpty);
            forall j | 0 <= j < |t.names| ::
              r.dtypes[j] == (if Converts(t, j, cols, skipEmpty) then Object else t.dtypes[j]) &&
              forall k | 0 <= k < |t.rows| ::
                r.rows[k][j] == if Converts(t, j, cols, skipEmpty) then Value.Text(Show(t.rows[k][j])) else t.rows[k][j]
    decreases |cols|
  {
    if cols != [] {
      var init, c := cols[..|cols| - 1], cols[|cols| - 1];
      assert cols == init + [c];
      var m := Stringified(t, init, skipEmpty);
      StringifiedCells(t, init, skipEmpty);
      var r := AsStr(m, c, skipEmpty);
      forall j | 0 <= j < |t.names|
        ensures r.dtypes[j] == (if Converts(t, j, cols, skipEmpty) then Object else t.dtypes[j])
        ensures forall k | 0 <= k < |t.rows| ::
                  r.rows[k][j] == if Converts(t, j, cols, skipEmpty) then Value.Text(Show(t.rows[k][j])) else t.rows[k][j]
      {
        assert t.names[j] in cols <==> t.names[j] in init || t.names[j] == c;
        forall k | 0 <= k < |t.rows|
          ensures r.rows[k][j] == if Converts(t, j, cols, skipEmpty) then Value.Text(Show(t.rows[k][j])) else t.rows[k][j]
        {
          assert m.rows[k][j] == if Converts(t, j, init, skipEmpty) then Value.Text(Show(t.rows[k][j])) else t.rows[k][j];
          if t.names[j] == c {
            assert r.rows[k][j] == Value.Text(Show(m.rows[k][j]));
          } else {
            assert r.rows[k][j] == m.rows[k][j];
          }
        }
      }
    }
  }

  /** The two pages agree on every cell; they differ only in the dtypes of a table without
      rows, which the newer page leaves alone. */
  lemma PagesAgreeOnCells(t: Table, cols: seq<string>)
    requires WellFormed(t)
    ensures Stringified(t, cols, true).rows == Stringified(t, cols, false).rows
    ensures |t.rows| > 0 ==> Stringified(t, cols, true) == Stringified(t, cols, false)
    ensures |t.rows| == 0 ==> Stringified(t, cols, true) == t
  {
    StringifiedCells(t, cols, true);
    StringifiedCells(t, cols, false);
    var a, b := Stringified(t, cols, true), Stringified(t, cols, false);
    assert a.rows == b.rows by {
      forall k | 0 <= k < |t.rows| ensures a.rows[k] == b.rows[k] {
        assert forall j | 0 <= j < |t.names| :: a.rows[k][j] == b.rows[k][j];
      }
    }
    if |t.rows| == 0 {
      assert a.dtypes == t.dtypes;
      assert a.rows == t.rows;
    } else {
      assert a.dtypes == b.dtypes;
    }
  }

  /** The dataframe on display, whose columns the page converts in place. */
  class DisplayFrame {
    var table: Table

    constructor (t: Table)
      ensures table == t
    {
      table := t;
    }

    /** `for col in cols_to_stringify: df[col] = df[col].astype(str)` */
    method StringifyColumns(cols: seq<string>, skipEmpty: bool)
      requires WellFormed(table)
      modifies this
      ensures WellFormed(table)
      ensures table == Stringified(old(table), cols, skipEmpty)
    {
      ghost var start := table;
      var i := 0;
      while i < |cols|
        invariant 0 <= i <= |cols|
        invariant table == Stringified(start, cols[..i], skipEmpty)
      {
        assert cols[..i + 1][..i] == cols[..i];
        table := AsStr(table, cols[i], skipEmpty);
        i := i + 1;
      }
      assert cols[..i] == cols;
    }
  }

  /** What the decoder shows: a warning about an incomplete response, a construction error,
      or the dataframe with its index. */
  datatype Shown = Incomplete | ConstructionError | Displayed(index: Index, frame: Table)

  /** `display_df_from_api_split_response`: the guard, the index reconstruction, the
      construction and the conversion of the categorical columns present. `skipEmpty` says
      whether an empty column is left unconverted. */
  method DisplaySplitResponse(r: SplitResponse, names: LevelNames, categorical: seq<string>, skipEmpty: bool)
    returns (out: Shown)
    ensures out == Incomplete <==> !Complete(r)
    ensures Complete(r) ==>
              var entries, columns, data := ListOr(r.index).value, ListOr(r.columns).value, ListOr(r.data).value;
              var ix := ReconstructIndex(entries, data, names);
              if Constructible(ix, columns, data)
              then out == Displayed(ix, Stringified(Built(columns, data), KeepIn(categorical, columns), skipEmpty))
              else out == ConstructionError
  {
    if !Complete(r) {
      return Incomplete;
    }
    var entries, columns, data := ListOr(r.index).value, ListOr(r.columns).value, ListOr(r.data).value;
    var ix := ReconstructIndex(entries, data, names);
    if !Constructible(ix, columns, data) {
      return ConstructionError;
    }
    var shown := new DisplayFrame(Built(columns, data));
    shown.StringifyColumns(KeepIn(categorical, columns), skipEmpty);
    out := Displayed(ix, shown.table);
  }
}
