/** `StaticPlots`: the plotting methods over one table, and `subplots`, which lays several of
    them out on a grid of axes. Each drawing call of the plotting library is an input that
    says whether the call succeeds; what it draws is not modelled. */
module StaticPlots {
  import opened Wrappers
  import opened Text
  import opened Frames
  import opened Schemas
  import Descriptive

  // ---------------------------------------------------------------- grid sizing

  /** `math.ceil(n / d)` for a whole `n` and a non-zero divisor of either sign. */
  function CeilDiv(n: nat, d: int): (r: int)
    requires d != 0
    ensures d > 0 ==> r >= 0 && r * d >= n && (r - 1) * d < n
    ensures d < 0 ==> r <= 0 && r == -(n / -d)
  {
    if d > 0 then (n + d - 1) / d else -(n / -d)
  }

  /** The least `c` from `c` upwards whose square reaches `n`. */
  function CeilSqrtFrom(n: nat, c: nat): (r: nat)
    requires 1 <= c <= n && (c - 1) * (c - 1) < n
    ensures r * r >= n && (r - 1) * (r - 1) < n && r >= 1
    decreases n - c
  {
    if c * c >= n then c
    else
      assert c * 1 <= c * c;
      CeilSqrtFrom(n, c + 1)
  }

  /** `math.ceil(math.sqrt(n))`: the least `c` with `c * c >= n`. */
  function CeilSqrt(n: nat): (r: nat)
    ensures r * r >= n
    ensures n > 0 ==> r >= 1 && (r - 1) * (r - 1) < n
    ensures n == 0 ==> r == 0
  {
    if n == 0 then 0 else CeilSqrtFrom(n, 1)
  }

  /** The squarish grid for `n` plots: `ncols = ceil(sqrt(n))`, `nrows = ceil(n / ncols)`.
      It holds every plot, has no more rows than columns, and leaves no row empty. */
  function SquareGrid(n: nat): (g: (int, int))
    requires n > 0
    ensures 1 <= g.0 <= g.1 && g.0 * g.1 >= n && (g.0 - 1) * g.1 < n
  {
    var c := CeilSqrt(n);
    var rows := CeilDiv(n, c);
    assert (rows - 1) * c < c * c;
    FactorBelow(rows - 1, c, c);
    (rows, c)
  }

  /** Cancelling a positive factor keeps a strict order. */
  lemma FactorBelow(a: int, b: int, c: int)
    requires c > 0 && a * c < b * c
    ensures a < b
  {
    assert (b - a) * c == b * c - a * c;
    assert (b - a) * c > 0;
    PositiveProduct(b - a, c);
  }

  lemma PositiveProduct(d: int, c: int)
    requires c > 0 && d * c > 0
    ensures d > 0
  {
  }

  /** The grid of `subplots`: both sizes computed when both are missing, one computed from
      the other when one is missing, and both kept when both are given. */
  function GridFor(n: nat, nrows: Option<int>, ncols: Option<int>): (r: Result<(int, int)>)
    requires n > 0
    ensures nrows.None? && ncols.None? ==> r == Ok(SquareGrid(n))
    ensures nrows.Some? && ncols.Some? ==> r == Ok((nrows.value, ncols.value))
    ensures r.Err? <==> (nrows.None? && ncols == Some(0)) || (ncols.None? && nrows == Some(0))
    ensures r.Err? ==> r.error == ZeroDivisionError
  {
    if nrows.None? && ncols.None? then Ok(SquareGrid(n))
    else if nrows.None? then
      if ncols.value == 0 then Err(ZeroDivisionError) else Ok((CeilDiv(n, ncols.value), ncols.value))
    else if ncols.None? then
      if nrows.value == 0 then Err(ZeroDivisionError) else Ok((nrows.value, CeilDiv(n, nrows.value)))
    else Ok((nrows.value, ncols.value))
  }

  /** When at least one size is computed and the given one is positive, every plot gets an axis. */
  lemma GridForFits(n: nat, nrows: Option<int>, ncols: Option<int>)
    requires n > 0 && (nrows.None? || ncols.None?)
    requires nrows.Some? ==> nrows.value > 0
    requires ncols.Some? ==> ncols.value > 0
    ensures GridFor(n, nrows, ncols).Ok?
    ensures var (rows, cols) := GridFor(n, nrows, ncols).value; rows >= 1 && cols >= 1 && rows * cols >= n
  {
    if nrows.None? && ncols.None? {
    }
  }

  // ---------------------------------------------------------------- titles

  /** An estimator argument as `_get_estimator_name` distinguishes it. */
  datatype Estimator = NoEstimator | EstimatorText(s: string) | Callable(name: Option<string>, repr: string)

  /** `_get_estimator_name`: `None` reads "values", a string itself, a callable its
      `__name__`, anything else its `str`. */
  function EstimatorName(e: Estimator): (r: string)
    ensures e.NoEstimator? ==> r == "values"
    ensures e.EstimatorText? ==> r == e.s
    ensures e.Callable? ==> r == (if e.name.Some? then e.name.value else e.repr)
  {
    match e
    case NoEstimator => "values"
    case EstimatorText(s) => s
    case Callable(name, repr) => if name.Some? then name.value else repr
  }

  /** The title `bar_chart` builds: "Bar Chart: " and the x column, then " vs " and the y
      column when one is given, then " by " and the hue when one is given. */
  function BarTitleOf(x: string, y: Option<string>, hue: Option<string>): (title: string)
    ensures |title| == 11 + |x| + (if y.Some? then 4 + |y.value| else 0) + (if hue.Some? then 4 + |hue.value| else 0)
    ensures title[..11 + |x|] == "Bar Chart: " + x
    ensures y.Some? ==> title[11 + |x|..15 + |x| + |y.value|] == " vs " + y.value
    ensures hue.Some? ==> title[|title| - 4 - |hue.value|..] == " by " + hue.value
  {
    "Bar Chart: " + x + (if y.Some? then " vs " + y.value else "") + (if hue.Some? then " by " + hue.value else "")
  }

  /** The title of a heatmap: the index names joined by ", ", " vs ", the column names joined
      by ". ", and " (Normalized)" when normalising. */
  function HeatmapTitle(index: seq<string>, columns: seq<string>, normalized: bool): (t: string)
    ensures t == "Heatmap: " + Join(index, ", ") + " vs " + Join(columns, ". ") + (if normalized then " (Normalized)" else "")
    ensures |t| >= 13 && t[..9] == "Heatmap: "
    ensures normalized ==> t == HeatmapTitle(index, columns, false) + " (Normalized)"
  {
    var plain := "Heatmap: " + Join(index, ", ") + " vs " + Join(columns, ". ");
    if normalized then plain + " (Normalized)" else plain
  }

  /** Where `Join(parts, sep)` sits at position `p` of `t`, part `i` sits at `p` plus its
      offset in the join, followed by `sep` unless it is the last part. */
  lemma JoinInside(t: string, p: nat, parts: seq<string>, sep: string, i: nat)
    requires p + |Join(parts, sep)| <= |t| && t[p..p + |Join(parts, sep)|] == Join(parts, sep)
    requires i < |parts|
    ensures var o := p + JoinOffset(parts, sep, i);
            o + |parts[i]| <= |t| && t[o..o + |parts[i]|] == parts[i] &&
            (i + 1 < |parts| ==> o + |parts[i]| + |sep| <= |t| && t[o + |parts[i]|..o + |parts[i]| + |sep|] == sep)
  {
    var j := Join(parts, sep);
    var o := JoinOffset(parts, sep, i);
    var n := |parts[i]|;
    JoinHoldsParts(parts, sep, i);
    SubSlice(t, p, |j|, o, o + n);
    if i + 1 < |parts| {
      JoinHoldsSeparators(parts, sep, i);
      SubSlice(t, p, |j|, o + n, o + n + |sep|);
    }
  }

  /** A slice of a slice is a slice of the whole. */
  lemma SubSlice(t: string, p: nat, n: nat, a: nat, b: nat)
    requires p + n <= |t| && a <= b <= n
    ensures t[p..p + n][a..b] == t[p + a..p + b]
  {
    var u := t[p..p + n];
    assert forall k | 0 <= k < b - a :: u[a..b][k] == u[a + k] == t[p + a + k];
  }

  /** The heatmap title names every index name in order, each but the last followed by ", ". */
  lemma HeatmapTitleIndexNames(index: seq<string>, columns: seq<string>, normalized: bool, i: nat)
    requires i < |index|
    ensures var t := HeatmapTitle(index, columns, normalized);
            var o := 9 + JoinOffset(index, ", ", i);
            o + |index[i]| <= |t| && t[o..o + |index[i]|] == index[i] &&
            (i + 1 < |index| ==> o + |index[i]| + 2 <= |t| && t[o + |index[i]|..o + |index[i]| + 2] == ", ")
  {
    var t := HeatmapTitle(index, columns, normalized);
    var ji := Join(index, ", ");
    assert t[9..9 + |ji|] == ji;
    JoinInside(t, 9, index, ", ", i);
  }

  /** After the index names comes " vs ", then every column name in order, each but the last
      followed by ". ". */
  lemma HeatmapTitleColumnNames(index: seq<string>, columns: seq<string>, normalized: bool, j: nat)
    requires j < |columns|
    ensures var t := HeatmapTitle(index, columns, normalized);
            var v := 9 + |Join(index, ", ")|;
            var o := v + 4 + JoinOffset(columns, ". ", j);
            v + 4 <= |t| && t[v..v + 4] == " vs " &&
            o + |columns[j]| <= |t| && t[o..o + |columns[j]|] == columns[j] &&
            (j + 1 < |columns| ==> o + |columns[j]| + 2 <= |t| && t[o + |columns[j]|..o + |columns[j]| + 2] == ". ")
  {
    var t := HeatmapTitle(index, columns, normalized);
    var jc := Join(columns, ". ");
    var v := 9 + |Join(index, ", ")|;
    assert t[v..v + 4] == " vs ";
    assert t[v + 4..v + 4 + |jc|] == jc;
    JoinInside(t, v + 4, columns, ". ", j);
  }

  /** With one index name and one column name the separators do not appear. */
  lemma HeatmapTitleSingle(i: string, c: string)
    ensures HeatmapTitle([i], [c], false) == "Heatmap: " + i + " vs " + c
  {
  }

  // ---------------------------------------------------------------- the plotting methods

  /** Keyword arguments of a call, by keyword. */
  type Kwargs = map<Key, ParamValue>

  /** Whether each library call a method makes succeeds: the cross tabulation of a heatmap,
      and the drawing call of every method. */
  datatype Library = Library(dataOk: bool, drawOk: bool)

  /** What a plotting method does to its axis: it raises, or returns having drawn the plot
      and set its title, or returns having only set an error title. */
  datatype PlotOutcome = Raised(error: Error) | Drawn(title: string) | Marked(title: string)

  /** `v in df.columns`: a string is looked up; a list or dict cannot be hashed; any other
      value is never a column name. */
  datatype Lookup = Found | Absent | Unhashable

  function LookupIn(v: ParamValue, names: seq<string>): (r: Lookup)
    ensures r == Found <==> v.Str? && v.s in names
  {
    match v
    case Str(s) => if s in names then Found else Absent
    case Names(_) => Unhashable
    case Keywords(_) => Unhashable
    case _ => Absent
  }

  const UnhashableMessage := "unhashable type"

  function Missing(param: Key): Error {
    TypeError("missing 1 required positional argument: '" + KeyName(param) + "'")
  }

  function NotFeature(v: ParamValue): Error {
    ValueError(Display(v) + " not in list of features for data")
  }

  /** The columns a plotting method looks at: all columns, and the categorical ones
      (`categorical_data().columns`). */
  datatype Columns = Columns(all: seq<string>, categorical: seq<string>)

  function ColumnsOf(t: Table): (view: Columns)
    requires WellFormed(t)
    ensures view.all == t.names
    ensures forall x :: x in view.categorical <==>
              exists j | 0 <= j < |t.names| :: t.names[j] == x && t.dtypes[j] in Descriptive.CategoricalKinds
    ensures Valid(t) ==>
              view.categorical == Descriptive.CategoricalColumnsOf(t).names &&
              (forall x :: x in view.categorical <==> x in t.names && DTypeOf(t, x) in Descriptive.CategoricalKinds)
  {
    NamesOfKindAt(t.names, t.dtypes, Descriptive.CategoricalKinds);
    Columns(t.names, ColumnsOfKind(t, Descriptive.CategoricalKinds))
  }

  /** Whether `cross_tabs` finds every index and column name among the categorical columns. */
  predicate CrossTabsOk(view: Columns, indexNames: seq<string>, columnsNames: seq<string>) {
    Descriptive.FirstMissing(indexNames + columnsNames, view.categorical).None?
  }

  /** The check on the column view is the check `cross_tabs` makes on the table. */
  lemma CrossTabsOkSpec(t: Table, indexNames: seq<string>, columnsNames: seq<string>)
    requires Valid(t)
    ensures CrossTabsOk(ColumnsOf(t), indexNames, columnsNames) <==> Descriptive.CrossTabsCheck(t, indexNames, columnsNames) == Pass
  {
  }

  /** `histogram(col_name, ax, ...)` */
  function Histogram(view: Columns, kw: Kwargs, lib: Library): (r: PlotOutcome)
    ensures r.Marked? == false
    ensures r.Drawn? <==> ColName in kw && LookupIn(kw[ColName], view.all) == Found && lib.drawOk
    ensures r.Drawn? ==> r.title == "Histogram of " + kw[ColName].s
    ensures ColName in kw && LookupIn(kw[ColName], view.all) == Absent ==> r == Raised(NotFeature(kw[ColName]))
  {
    if ColName !in kw then Raised(Missing(ColName))
    else
      var c := kw[ColName];
      match LookupIn(c, view.all)
      case Unhashable => Raised(TypeError(UnhashableMessage))
      case Absent => Raised(NotFeature(c))
      case Found => if lib.drawOk then Drawn("Histogram of " + Display(c)) else Raised(LibraryError)
  }

  /** `kde(col_name, ax, hue_col=None, ...)` */
  function Kde(view: Columns, kw: Kwargs, lib: Library): (r: PlotOutcome)
    ensures r.Marked? == false
    ensures r.Drawn? <==> ColName in kw && LookupIn(kw[ColName], view.all) == Found && lib.drawOk
    ensures r.Drawn? ==> r.title == "KDE plot of " + kw[ColName].s
    ensures ColName in kw && LookupIn(kw[ColName], view.all) == Absent ==> r == Raised(NotFeature(kw[ColName]))
  {
    if ColName !in kw then Raised(Missing(ColName))
    else
      var c := kw[ColName];
      match LookupIn(c, view.all)
      case Unhashable => Raised(TypeError(UnhashableMessage))
      case Absent => Raised(NotFeature(c))
      case Found => if lib.drawOk then Drawn("KDE plot of " + Display(c)) else Raised(LibraryError)
  }

  /** `scatter(col_name_x, col_name_y, ax, ...)`: the x column is checked before the y column. */
  function Scatter(view: Columns, kw: Kwargs, lib: Library): (r: PlotOutcome)
    ensures r.Marked? == false
    ensures r.Drawn? <==> ColNameX in kw && ColNameY in kw &&
                          LookupIn(kw[ColNameX], view.all) == Found && LookupIn(kw[ColNameY], view.all) == Found && lib.drawOk
    ensures r.Drawn? ==> r.title == "Scatterplot of " + kw[ColNameX].s + " and " + kw[ColNameY].s
    ensures ColNameX in kw && ColNameY in kw && LookupIn(kw[ColNameX], view.all) == Absent ==>
              r == Raised(NotFeature(kw[ColNameX]))
  {
    if ColNameX !in kw then Raised(Missing(ColNameX))
    else if ColNameY !in kw then Raised(Missing(ColNameY))
    else
      var x, y := kw[ColNameX], kw[ColNameY];
      match LookupIn(x, view.all)
      case Unhashable => Raised(TypeError(UnhashableMessage))
      case Absent => Raised(NotFeature(x))
      case Found =>
        match LookupIn(y, view.all)
        case Unhashable => Raised(TypeError(UnhashableMessage))
        case Absent => Raised(NotFeature(y))
        case Found =>
          if lib.drawOk then Drawn("Scatterplot of " + Display(x) + " and " + Display(y)) else Raised(LibraryError)
  }

  function NotFoundTitle(v: ParamValue): string {
    "Error: " + Display(v) + " not found"
  }

  /** The error `count_plot` raises from its own handler: it calls the axis title as a function. */
  const TitleNotCallable := TypeError("'Text' object is not callable")

  /** `count_plot(ax, x_col, ...)`: a column outside the categorical part only gets an error
      title; a failing draw ends in the broken error handler, which raises. */
  function CountPlot(view: Columns, kw: Kwargs, lib: Library): (r: PlotOutcome)
    ensures r.Drawn? <==> XCol in kw && LookupIn(kw[XCol], view.categorical) == Found && lib.drawOk
    ensures r.Drawn? ==> r.title == "Count Plot for " + kw[XCol].s
    ensures r.Marked? <==> XCol in kw && LookupIn(kw[XCol], view.categorical) == Absent
    ensures r.Marked? ==> r.title == NotFoundTitle(kw[XCol])
    ensures XCol in kw && LookupIn(kw[XCol], view.categorical) == Found && !lib.drawOk ==>
              r == Raised(TitleNotCallable)
  {
    if XCol !in kw then Raised(Missing(XCol))
    else
      var x := kw[XCol];
      match LookupIn(x, view.categorical)
      case Unhashable => Raised(TypeError(UnhashableMessage))
      case Absent => Marked(NotFoundTitle(x))
      case Found => if lib.drawOk then Drawn("Count Plot for " + Display(x)) else Raised(TitleNotCallable)
  }

  /** The checks of `bar_chart`, in order: x among the categorical columns, then y (when
      given) among all columns, then hue (when given) among the categorical columns. The
      first failure is the error title; `None` means every check passed. */
  function BarChartChecks(view: Columns, kw: Kwargs): (r: Result<Option<string>>)
    requires XCol in kw
    ensures r == Ok(None) <==>
              LookupIn(kw[XCol], view.categorical) == Found &&
              (YCol in kw ==> LookupIn(kw[YCol], view.all) == Found) &&
              (Hue in kw ==> LookupIn(kw[Hue], view.categorical) == Found)
    ensures LookupIn(kw[XCol], view.categorical) == Absent ==> r == Ok(Some(NotFoundTitle(kw[XCol])))
  {
    var cat := view.categorical;
    var x := kw[XCol];
    match LookupIn(x, cat)
    case Unhashable => Err(TypeError(UnhashableMessage))
    case Absent => Ok(Some(NotFoundTitle(x)))
    case Found =>
      var yCheck := if YCol in kw then LookupIn(kw[YCol], view.all) else Found;
      if yCheck == Unhashable then Err(TypeError(UnhashableMessage))
      else if yCheck == Absent then Ok(Some(NotFoundTitle(kw[YCol])))
      else
        var hueCheck := if Hue in kw then LookupIn(kw[Hue], cat) else Found;
        if hueCheck == Unhashable then Err(TypeError(UnhashableMessage))
        else if hueCheck == Absent then Ok(Some(NotFoundTitle(kw[Hue])))
        else Ok(None)
  }

  function DisplayOpt(kw: Kwargs, key: Key): Option<string> {
    if key in kw then Some(Display(kw[key])) else None
  }

  /** `bar_chart(ax, x_col, y_col=None, hue=None, ...)`: a failing check only sets its error
      title; a failing draw sets a generic error title. Nothing it does raises past a check. */
  function BarChart(view: Columns, kw: Kwargs, lib: Library): (r: PlotOutcome)
    ensures r.Raised? ==> XCol !in kw || BarChartChecks(view, kw).Err?
    ensures r.Drawn? <==> XCol in kw && BarChartChecks(view, kw) == Ok(None) && lib.drawOk
    ensures r.Drawn? ==> r.title == BarTitleOf(Display(kw[XCol]), DisplayOpt(kw, YCol), DisplayOpt(kw, Hue))
    ensures XCol in kw && BarChartChecks(view, kw) == Ok(None) && !lib.drawOk ==>
              r == Marked("Error generating bar chart for " + Display(kw[XCol]))
  {
    if XCol !in kw then Raised(Missing(XCol))
    else
      match BarChartChecks(view, kw)
      case Err(e) => Raised(e)
      case Ok(Some(title)) => Marked(title)
      case Ok(None) =>
        var x := Display(kw[XCol]);
        if lib.drawOk then Drawn(BarTitleOf(x, DisplayOpt(kw, YCol), DisplayOpt(kw, Hue)))
        else Marked("Error generating bar chart for " + x)
  }

  /** The names `cross_tabs` iterates over: the items of a list, or the characters of a string;
      any other value cannot be iterated. */
  function NameList(v: ParamValue): Option<seq<string>> {
    match v
    case Names(ns) => Some(ns)
    case Str(s) => Some(seq(|s|, i requires 0 <= i < |s| => [s[i]]))
    case _ => None
  }

  /** Truthiness of a parameter value. */
  predicate Truthy(v: ParamValue) {
    match v
    case Str(s) => s != ""
    case Whole(i) => i != 0
    case Number(r) => r != "0.0" && r != "-0.0"
    case Flag(b) => b
    case Names(ns) => ns != []
    case Pair(_, _) => true
    case Keywords(r) => r != "{}"
  }

  /** `crosstab_heatmap(ax, index_names_ct, column_names_ct, normalize_ct=False, ...)`: when
      the cross tabulation fails the axis only gets an error title, and so when the heatmap fails. */
  function CrosstabHeatmap(view: Columns, kw: Kwargs, lib: Library): (r: PlotOutcome)
    ensures r.Raised? <==> IndexNamesCt !in kw || ColumnNamesCt !in kw
    ensures IndexNamesCt in kw && ColumnNamesCt in kw ==>
              var idx := NameList(kw[IndexNamesCt]);
              var cols := NameList(kw[ColumnNamesCt]);
              var dataOk := idx.Some? && cols.Some? && CrossTabsOk(view, idx.value, cols.value) && lib.dataOk;
              (!dataOk ==> r == Marked("Error generating crosstabl")) &&
              (dataOk && !lib.drawOk ==> r == Marked("Error plotting heatmap")) &&
              (dataOk && lib.drawOk ==> r.Drawn?)
    ensures r.Drawn? ==> (lib.dataOk && lib.drawOk &&
              var idx := NameList(kw[IndexNamesCt]);
              var cols := NameList(kw[ColumnNamesCt]);
              idx.Some? && cols.Some? &&
              CrossTabsOk(view, idx.value, cols.value) &&
              r.title == HeatmapTitle(idx.value, cols.value, NormalizeCt in kw && Truthy(kw[NormalizeCt])))
  {
    if IndexNamesCt !in kw then Raised(Missing(IndexNamesCt))
    else if ColumnNamesCt !in kw then Raised(Missing(ColumnNamesCt))
    else
      var idx := NameList(kw[IndexNamesCt]);
      var cols := NameList(kw[ColumnNamesCt]);
      if idx.None? || cols.None? || !CrossTabsOk(view, idx.value, cols.value) || !lib.dataOk then
        Marked("Error generating crosstabl")
      else if !lib.drawOk then Marked("Error plotting heatmap")
      else Drawn(HeatmapTitle(idx.value, cols.value, NormalizeCt in kw && Truthy(kw[NormalizeCt])))
  }

  /** The plot types both `subplots` and the dashboard handler dispatch on. */
  const PlotTypes: seq<string> := ["histogram", "kde", "scatter", "crosstab_heatmap", "bar_chart", "count_plot"]

  /** `plot_func(ax=current_ax, **params)` for a known plot type. */
  function Dispatch(plotType: string, view: Columns, kw: Kwargs, lib: Library): (r: PlotOutcome)
    requires plotType in PlotTypes
    ensures Ax in kw ==> r.Raised?
  {
    if Ax in kw then Raised(TypeError("got multiple values for keyword argument 'ax'"))
    else match plotType
      case "histogram" => Histogram(view, kw, lib)
      case "kde" => Kde(view, kw, lib)
      case "scatter" => Scatter(view, kw, lib)
      case "crosstab_heatmap" => CrosstabHeatmap(view, kw, lib)
      case "bar_chart" => BarChart(view, kw, lib)
      case "count_plot" => CountPlot(view, kw, lib)
  }

  // ---------------------------------------------------------------- subplots

  /** One axis of a figure: its title, whether a plot is drawn on it, whether it is shown. */
  datatype Axis = Axis(title: Option<string>, plotted: bool, visible: bool)

  const BlankAxis := Axis(None, false, true)

  /** The axis a plotting method leaves, given the title its caller sets when it raises. */
  function AxisAfter(o: PlotOutcome, raisedTitle: string): (a: Axis)
    ensures a.visible && a.title.Some?
    ensures a.plotted <==> o.Drawn?
  {
    match o
    case Raised(_) => Axis(Some(raisedTitle), false, true)
    case Drawn(title) => Axis(Some(title), true, true)
    case Marked(title) => Axis(Some(title), false, true)
  }

  /** `for j in range(start, len(axes_flat)): axes_flat[j].set_visible(False)` */
  method HideFrom(axes: array<Axis>, start: int)
    modifies axes
    ensures forall j | 0 <= j < axes.Length :: axes[j] == if j < start then old(axes[j]) else old(axes[j]).(visible := false)
  {
    var j := if start < 0 then 0 else start;
    while j < axes.Length
      invariant (if start < 0 then 0 else start) <= j || j >= axes.Length
      invariant forall k | 0 <= k < axes.Length ::
                  axes[k] == if k < start || k >= j then old(axes[k]) else old(axes[k]).(visible := false)
    {
      axes[j] := axes[j].(visible := false);
      j := j + 1;
    }
  }

  /** One configuration of `subplots`: its `type` (which may be missing) and its `params`. */
  datatype SubplotConfig = SubplotConfig(plotType: Option<string>, params: Kwargs)

  function TypeText(t: Option<string>): string {
    if t.Some? then t.value else "None"
  }

  /** What `subplots` leaves on the axis of one configuration. */
  function SubplotAxis(view: Columns, c: SubplotConfig, lib: Library): (a: Axis)
    ensures a.visible
    ensures (c.plotType.None? || c.plotType.value !in PlotTypes) ==>
              a == Axis(Some("Unknown type: " + TypeText(c.plotType)), false, true)
    ensures a.plotted ==> c.plotType.Some? && c.plotType.value in PlotTypes && Dispatch(c.plotType.value, view, c.params, lib).Drawn?
  {
    if c.plotType.Some? && c.plotType.value in PlotTypes then
      AxisAfter(Dispatch(c.plotType.value, view, c.params, lib), "Plotting Error!")
    else Axis(Some("Unknown type: " + TypeText(c.plotType)), false, true)
  }

  /** What `subplots` produces: nothing for no configurations, an error when the grid cannot
      be sized or created, or the axes of the figure. */
  datatype SubplotsResult = NoConfigs | GridError(error: Error) | Figure(axes: seq<Axis>)

  /** `subplots(plot_configs, nrows, ncols)`. `lib[i]` says how the library calls of the
      i-th configuration go. */
  method Subplots(t: Table, configs: seq<SubplotConfig>, nrows: Option<int>, ncols: Option<int>, lib: seq<Library>)
    returns (r: SubplotsResult)
    requires Valid(t) && |lib| == |configs|
    ensures configs == [] <==> r == NoConfigs
    ensures configs != [] && GridFor(|configs|, nrows, ncols).Err? ==> r == GridError(ZeroDivisionError)
    ensures configs != [] && GridFor(|configs|, nrows, ncols).Ok? ==>
              var (rows, cols) := GridFor(|configs|, nrows, ncols).value;
              if rows < 1 || cols < 1 then r == GridError(LibraryError)
              else r.Figure? && |r.axes| == rows * cols &&
                   forall j | 0 <= j < rows * cols ::
                     r.axes[j] == if j < |configs| then SubplotAxis(ColumnsOf(t), configs[j], lib[j]) else BlankAxis.(visible := false)
  {
    var n := |configs|;
    if n == 0 {
      return NoConfigs;
    }
    var grid := GridFor(n, nrows, ncols);
    if grid.Err? {
      return GridError(grid.error);
    }
    var (rows, cols) := grid.value;
    if rows < 1 || cols < 1 {
      return GridError(LibraryError);
    }
    var view := ColumnsOf(t);
    var cells := rows * cols;
    var axes := new Axis[cells](_ => BlankAxis);
    var i := 0;
    var last := 0;
    while i < n
      invariant 0 <= i <= n && i <= cells
      invariant last == if i == 0 then 0 else i - 1
      invariant forall j | 0 <= j < i :: axes[j] == SubplotAxis(view, configs[j], lib[j])
      invariant forall j | i <= j < cells :: axes[j] == BlankAxis
    {
      last := i;
      if i >= cells {
        break;
      }
      axes[i] := SubplotAxis(view, configs[i], lib[i]);
      i := i + 1;
    }
    ghost var drawn := axes[..];
    HideFrom(axes, last + 1);
    forall k | 0 <= k < cells
      ensures axes[k] == if k < n then SubplotAxis(view, configs[k], lib[k]) else BlankAxis.(visible := false)
    {
      assert k < i ==> drawn[k] == SubplotAxis(view, configs[k], lib[k]);
    }
    r := Figure(axes[..]);
  }
}
