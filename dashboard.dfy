/** The older dashboard page: its column lists, its table display, and the parameters of its
    displot request. Widget values and the API's responses are inputs. */
module Dashboard {
  import opened Wrappers
  import Frames
  import Client

  /** `["column_A", "column_B", "column_C"]` */
  const DefaultFallback: seq<string> := ["column_A", "column_B", "column_C"]

  const Defaults := Client.ColumnLists(DefaultFallback, DefaultFallback, DefaultFallback)

  /** The list of all columns rebuilt from the other two: the numerical columns, then the
      categorical ones not already among them. */
  function Rebuilt(numerical: seq<string>, categorical: seq<string>): (r: seq<string>)
    ensures |numerical| <= |r| <= |numerical| + |categorical| && r[..|numerical|] == numerical
  {
    numerical + Frames.DropIn(categorical, numerical)
  }

  /** The rebuilt list holds each numerical and each categorical column, once when the two
      lists have no repeats. */
  lemma RebuiltColumns(numerical: seq<string>, categorical: seq<string>)
    ensures forall x :: x in Rebuilt(numerical, categorical) <==> x in numerical || x in categorical
    ensures Frames.Distinct(numerical) && Frames.Distinct(categorical) ==> Frames.Distinct(Rebuilt(numerical, categorical))
    ensures Rebuilt(numerical, categorical) == [] <==> numerical == [] && categorical == []
  {
    if Frames.Distinct(numerical) && Frames.Distinct(categorical) {
      var d := Frames.DropIn(categorical, numerical);
      Frames.DropInDistinct(categorical, numerical);
      var s := numerical + d;
      forall i, j | 0 <= i < j < |s| ensures s[i] != s[j] {
        if j >= |numerical| && i < |numerical| {
          assert s[j] == d[j - |numerical|] && s[j] in d;
          assert s[i] in numerical;
        } else if i >= |numerical| {
          assert s[i] == d[i - |numerical|] && s[j] == d[j - |numerical|];
        }
      }
    }
    if categorical != [] {
      assert categorical[0] in categorical;
      assert categorical[0] in Rebuilt(numerical, categorical);
    }
  }

  /** The column lists, as the page assigns them: each from the response with `[]` for a
      missing key; when the list of all columns is empty it is rebuilt from the other two,
      and then every list still empty falls back to the defaults; a failed or empty response
      gives the defaults for all three. */
  method InitColumnLists(response: Option<Client.ColumnResponse>) returns (lists: Client.ColumnLists)
    ensures response.None? || !Client.NonEmpty(response.value) ==> lists == Defaults
    ensures response.Some? && Client.NonEmpty(response.value) ==>
              var all, num, cat := Client.GetOr(response.value.allColumns, []),
                                   Client.GetOr(response.value.numerical, []),
                                   Client.GetOr(response.value.categorical, []);
              if all != [] then lists == Client.ColumnLists(all, num, cat)
              else lists.all == (if num == [] && cat == [] then DefaultFallback else Rebuilt(num, cat)) &&
                   lists.numerical == (if num == [] then DefaultFallback else num) &&
                   lists.categorical == (if cat == [] then DefaultFallback else cat)
    ensures lists.all != []
  {
    var all: seq<string> := [];
    var numerical: seq<string> := [];
    var categorical: seq<string> := [];
    if response.Some? && Client.NonEmpty(response.value) {
      all := Client.GetOr(response.value.allColumns, []);
      numerical := Client.GetOr(response.value.numerical, []);
      categorical := Client.GetOr(response.value.categorical, []);
      if all == [] {
        all := Rebuilt(numerical, categorical);
        RebuiltColumns(numerical, categorical);
        if all == [] {
          all := DefaultFallback;
        }
        if numerical == [] {
          numerical := DefaultFallback;
        }
        if categorical == [] {
          categorical := DefaultFallback;
        }
      }
    } else {
      all := DefaultFallback;
      numerical := DefaultFallback;
      categorical := DefaultFallback;
    }
    lists := Client.ColumnLists(all, numerical, categorical);
  }

  /** When the list of all columns had to be rebuilt, none of the three lists is left empty,
      and every column of the rebuilt list is a numerical or a categorical one. */
  lemma RebuiltListsNeverEmpty(n: seq<string>, c: seq<string>, lists: Client.ColumnLists)
    requires lists.all == (if n == [] && c == [] then DefaultFallback else Rebuilt(n, c))
    requires lists.numerical == (if n == [] then DefaultFallback else n)
    requires lists.categorical == (if c == [] then DefaultFallback else c)
    ensures lists.all != [] && lists.numerical != [] && lists.categorical != []
    ensures forall x | x in lists.all :: x in lists.numerical || x in lists.categorical
  {
    RebuiltColumns(n, c);
  }

  /** The table display of this page, which converts every categorical column present, rows
      or not. */
  method DisplayDfFromApiSplitResponse(r: Client.SplitResponse, names: Client.LevelNames, categorical: seq<string>)
    returns (out: Client.Shown)
    ensures out == Client.Incomplete <==> !Client.Complete(r)
    ensures Client.Complete(r) ==>
              var entries, columns, data := Client.ListOr(r.index).value, Client.ListOr(r.columns).value, Client.ListOr(r.data).value;
              var ix := Client.ReconstructIndex(entries, data, names);
              if Client.Constructible(ix, columns, data)
              then out == Client.Displayed(ix, Client.Stringified(Client.Built(columns, data), Frames.KeepIn(categorical, columns), false))
              else out == Client.ConstructionError
  {
    out := Client.DisplaySplitResponse(r, names, categorical, false);
  }

  // ---------------------------------------------------------------- displot

  /** The displot column selector: none without numerical columns, otherwise "price" when
      offered and the first column else. */
  function DisplotColumnDefault(numerical: seq<string>): (r: Option<string>)
    ensures r.Some? <==> numerical != []
    ensures r.Some? ==> r.value in numerical
    ensures r.Some? ==> r.value == if "price" in numerical then "price" else numerical[0]
  {
    if numerical == [] then None else Some(numerical[Client.PreferredIndex(numerical, "price")])
  }

  /** The displot request's query parameters, built one by one: the column (dropped from the
      query when the selector holds none) and the kind always, the hue when chosen, and the
      column selections when not empty, which reach the API as `ColumnQuery` sends them. */
  method DisplotApiParams(col: Option<string>, kind: string, hue: Option<string>,
                          includeColumns: seq<string>, excludeColumns: seq<string>)
    returns (q: map<string, Client.QueryValue>)
    ensures forall k | k in q :: k in {"col_name", "kind", "hue_col", "include_columns", "exclude_columns"}
    ensures "col_name" in q <==> col.Some?
    ensures col.Some? ==> q["col_name"] == Client.One(col.value)
    ensures "kind" in q && q["kind"] == Client.One(kind)
    ensures "hue_col" in q <==> Client.Chosen(hue)
    ensures "hue_col" in q ==> q["hue_col"] == Client.One(hue.value)
    ensures forall k | k in {"include_columns", "exclude_columns"} ::
              Client.Received(q, k) == Client.Received(Client.ColumnQuery(includeColumns, excludeColumns), k)
  {
    q := map["kind" := Client.One(kind)];
    if col.Some? {
      q := q["col_name" := Client.One(col.value)];
    }
    if hue.Some? && hue.value != "" {
      q := q["hue_col" := Client.One(hue.value)];
    }
    if includeColumns != [] {
      q := q["include_columns" := Client.Many(includeColumns)];
    }
    if excludeColumns != [] {
      q := q["exclude_columns" := Client.Many(excludeColumns)];
    }
  }
}
