/** The plot handlers of the API: the dashboard of several plots on one figure, and the
    distribution plot. Figures are represented by their axes; the PNG encoding is not modelled. */
module ApiPlotHandlers {
  import opened Wrappers
  import opened Frames
  import opened Schemas
  import opened ApiUtils
  import opened StaticPlots

  /** What `StaticPlots(df)` raises: `StaticPlots.__init__` takes no table. */
  const InstanceError := TypeError("StaticPlots.__init__() takes 1 positional argument but 2 were given")

  // ---------------------------------------------------------------- parameters

  /** The fields of `PlotParameter`, as keywords. */
  const FieldKeys: set<Key> := {ColName, Color, HueCol, Bins, ColNameX, ColNameY, Alpha, XCol, YCol,
                                EstimatorKey, ErrorbarKey, IndexNamesCt, ColumnNamesCt, Annot, Fmt, Cmap, AnnotKws}

  /** The field `k` of `p` as a keyword argument, or `None` when it is unset or no field. */
  function FieldValue(p: PlotParameter, k: Key): Option<ParamValue> {
    match k
    case ColName => StrField(p.colName)
    case Color => StrField(p.color)
    case HueCol => StrField(p.hueCol)
    case Bins => StrField(p.bins)
    case ColNameX => StrField(p.colNameX)
    case ColNameY => StrField(p.colNameY)
    case Alpha => if p.alpha.Some? then Some(Number(p.alpha.value)) else None
    case XCol => StrField(p.xCol)
    case YCol => StrField(p.yCol)
    case EstimatorKey => StrField(p.estimator)
    case ErrorbarKey => ErrorBarValue(p.errorbar)
    case IndexNamesCt => if p.indexNamesCt.Some? then Some(Names(p.indexNamesCt.value)) else None
    case ColumnNamesCt => if p.columnNamesCt.Some? then Some(Names(p.columnNamesCt.value)) else None
    case Annot => if p.annot.Some? then Some(ParamValue.Flag(p.annot.value)) else None
    case Fmt => StrField(p.fmt)
    case Cmap => StrField(p.cmap)
    case AnnotKws => if p.annotKws.Some? then Some(Keywords(p.annotKws.value)) else None
    case _ => None
  }

  /** `{k: v for k, v in params.model_dump().items() if v is not None}`. */
  function PlotParams(p: PlotParameter): (r: Kwargs)
    ensures forall k | k in r :: k in FieldKeys
  {
    map k | k in FieldKeys && FieldValue(p, k).Some? :: FieldValue(p, k).value
  }

  /** `model_dump` without `None`, for the column and colour fields: each key is present
      exactly when its field is set, and carries the field's value. */
  lemma PlotParamsNames(p: PlotParameter)
    ensures var r := PlotParams(p);
            (ColName in r <==> p.colName.Some?) && (p.colName.Some? ==> r[ColName] == Str(p.colName.value)) &&
            (Color in r <==> p.color.Some?) && (p.color.Some? ==> r[Color] == Str(p.color.value)) &&
            (HueCol in r <==> p.hueCol.Some?) && (p.hueCol.Some? ==> r[HueCol] == Str(p.hueCol.value)) &&
            (Bins in r <==> p.bins.Some?) && (p.bins.Some? ==> r[Bins] == Str(p.bins.value)) &&
            (ColNameX in r <==> p.colNameX.Some?) && (p.colNameX.Some? ==> r[ColNameX] == Str(p.colNameX.value)) &&
            (ColNameY in r <==> p.colNameY.Some?) && (p.colNameY.Some? ==> r[ColNameY] == Str(p.colNameY.value)) &&
            (Alpha in r <==> p.alpha.Some?) && (p.alpha.Some? ==> r[Alpha] == Number(p.alpha.value)) &&
            (XCol in r <==> p.xCol.Some?) && (p.xCol.Some? ==> r[XCol] == Str(p.xCol.value))
  {
  }

  /** The same for the remaining fields; the error bar is passed as a pair or as a method name. */
  lemma PlotParamsOthers(p: PlotParameter)
    ensures var r := PlotParams(p);
            (YCol in r <==> p.yCol.Some?) && (p.yCol.Some? ==> r[YCol] == Str(p.yCol.value)) &&
            (EstimatorKey in r <==> p.estimator.Some?) && (p.estimator.Some? ==> r[EstimatorKey] == Str(p.estimator.value)) &&
            (IndexNamesCt in r <==> p.indexNamesCt.Some?) && (p.indexNamesCt.Some? ==> r[IndexNamesCt] == Names(p.indexNamesCt.value)) &&
            (ColumnNamesCt in r <==> p.columnNamesCt.Some?) && (p.columnNamesCt.Some? ==> r[ColumnNamesCt] == Names(p.columnNamesCt.value)) &&
            (Annot in r <==> p.annot.Some?) && (p.annot.Some? ==> r[Annot] == ParamValue.Flag(p.annot.value)) &&
            (Fmt in r <==> p.fmt.Some?) && (p.fmt.Some? ==> r[Fmt] == Str(p.fmt.value)) &&
            (Cmap in r <==> p.cmap.Some?) && (p.cmap.Some? ==> r[Cmap] == Str(p.cmap.value)) &&
            (AnnotKws in r <==> p.annotKws.Some?) && (p.annotKws.Some? ==> r[AnnotKws] == Keywords(p.annotKws.value)) &&
            (ErrorbarKey in r <==> p.errorbar.Some?) &&
            (p.errorbar.Some? && p.errorbar.value.Interval? ==>
               r[ErrorbarKey] == Pair(p.errorbar.value.estimate, p.errorbar.value.level)) &&
            (p.errorbar.Some? && p.errorbar.value.Method? ==> r[ErrorbarKey] == Str(p.errorbar.value.name))
  {
  }

  /** The fields with a default survive the filter: a configuration that leaves them at their
      defaults hands its plot `errorbar=('ci', 95)`, `annot=True`, `fmt='d'` and `cmap='viridis'`,
      whatever else it sets. */
  lemma DefaultsSurvive(p: PlotParameter)
    requires p.errorbar == Some(Interval("ci", 95)) && p.annot == Some(true) && p.fmt == Some("d") && p.cmap == Some("viridis")
    ensures var kw := PlotParams(p);
            ErrorbarKey in kw && kw[ErrorbarKey] == Pair("ci", 95) &&
            Annot in kw && kw[Annot] == ParamValue.Flag(true) &&
            Fmt in kw && kw[Fmt] == Str("d") &&
            Cmap in kw && kw[Cmap] == Str("viridis")
  {
  }

  /** A configuration that sets no field reaches its plot with exactly the four defaults. */
  lemma DefaultParametersDump()
    ensures PlotParams(DefaultPlotParameter) ==
              map[ErrorbarKey := Pair("ci", 95), Annot := ParamValue.Flag(true), Fmt := Str("d"), Cmap := Str("viridis")]
  {
  }

  /** The keys whose columns the dashboard checks before plotting, in checking order. */
  const RequiredKeys: seq<Key> := [ColName, ColNameX, ColNameY, XCol, YCol]

  /** Whether `kw` sets `k` to a non-empty name. */
  predicate NamesColumn(kw: Kwargs, k: Key) {
    k in kw && kw[k].Str? && kw[k].s != ""
  }

  /** `required_cols_for_plot`: the non-empty names set under `keys`, in the order of `keys`. */
  function RequiredFrom(kw: Kwargs, keys: seq<Key>): (r: seq<string>)
    ensures |r| <= |keys|
    ensures forall k | k in keys && NamesColumn(kw, k) :: kw[k].s in r
    ensures forall c | c in r :: exists k | k in keys :: NamesColumn(kw, k) && kw[k].s == c
  {
    if keys == [] then []
    else (if NamesColumn(kw, keys[0]) then [kw[keys[0]].s] else []) + RequiredFrom(kw, keys[1..])
  }

  /** Every column a configuration names under a required key exists in the table. */
  predicate RequiredPresent(kw: Kwargs, names: seq<string>) {
    forall k | k in RequiredKeys && NamesColumn(kw, k) :: kw[k].s in names
  }

  /** `missing_cols` is empty exactly when every required column exists. */
  lemma MissingColumnsSpec(kw: Kwargs, names: seq<string>)
    ensures DropIn(RequiredFrom(kw, RequiredKeys), names) == [] <==> RequiredPresent(kw, names)
  {
    var req := RequiredFrom(kw, RequiredKeys);
    if DropIn(req, names) == [] {
      assert forall c | c in req :: c in names;
    } else {
      var c := DropIn(req, names)[0];
      assert c in req && c !in names;
    }
  }

  // ---------------------------------------------------------------- the dashboard

  /** `include_columns or exclude_columns`: a non-empty list was given. */
  predicate Requested(includeCols: Option<seq<string>>, excludeCols: Option<seq<string>>) {
    (includeCols.Some? && includeCols.value != []) || (excludeCols.Some? && excludeCols.value != [])
  }

  /** Without a non-empty include or exclude list the handlers plot from the whole table. */
  lemma UnrequestedShapeIsBase(base: Table, includeCols: Option<seq<string>>, excludeCols: Option<seq<string>>)
    requires Valid(base) && !Requested(includeCols, excludeCols)
    ensures GetShapedDataframe(base, includeCols, excludeCols) == base
  {
    if includeCols.None? && excludeCols.Some? {
      assert excludeCols.value == [];
      DropInNone(base.names, []);
      SelectAll(base);
    }
  }

  /** What one configuration leaves on its axis, and whether it adds to `plotted_count`. */
  datatype Attempt = Attempt(axis: Axis, counted: bool)

  /** One iteration of the dashboard loop. A configuration counts when its type is known,
      its required columns exist and its plotting method returns, whether or not it drew. */
  function DashboardAttempt(view: Columns, c: PlotConfig, lib: Library): (a: Attempt)
    ensures a.axis.visible && (a.axis.plotted ==> a.counted) && (a.counted ==> c.plotType in PlotTypes)
    ensures c.plotType !in PlotTypes ==> a == Attempt(Axis(Some("Unknown plot type: " + c.plotType), false, true), false)
  {
    var kw := PlotParams(c.params);
    if c.plotType in PlotTypes then
      var errorTitle := "Plotting Error: " + c.plotType;
      if DropIn(RequiredFrom(kw, RequiredKeys), view.all) != [] then Attempt(Axis(Some(errorTitle), false, true), false)
      else
        var o := Dispatch(c.plotType, view, kw, lib);
        Attempt(AxisAfter(o, errorTitle), !o.Raised?)
    else Attempt(Axis(Some("Unknown plot type: " + c.plotType), false, true), false)
  }

  /** A configuration counts exactly when its type is known, its required columns exist and
      its plotting method does not raise; an axis with a plot on it always counts, while a
      counted axis may hold only an error title. A configuration that does not count leaves
      the title of an unknown type or of a plotting error. */
  lemma DashboardAttemptSpec(view: Columns, c: PlotConfig, lib: Library)
    ensures var a := DashboardAttempt(view, c, lib);
            a.axis.visible &&
            (a.counted <==> c.plotType in PlotTypes && RequiredPresent(PlotParams(c.params), view.all) &&
                            !Dispatch(c.plotType, view, PlotParams(c.params), lib).Raised?) &&
            (a.axis.plotted ==> a.counted) &&
            (c.plotType !in PlotTypes ==> a.axis == Axis(Some("Unknown plot type: " + c.plotType), false, true)) &&
            (c.plotType in PlotTypes && !a.counted ==> a.axis == Axis(Some("Plotting Error: " + c.plotType), false, true))
  {
    MissingColumnsSpec(PlotParams(c.params), view.all);
  }

  /** `plotted_count` after the configurations `configs`. */
  function PlottedCount(view: Columns, configs: seq<PlotConfig>, lib: seq<Library>): (n: nat)
    requires |lib| == |configs|
    ensures n <= |configs|
    decreases |configs|
  {
    if configs == [] then 0
    else
      var k := |configs| - 1;
      PlottedCount(view, configs[..k], lib[..k]) + (if DashboardAttempt(view, configs[k], lib[k]).counted then 1 else 0)
  }

  /** The axis `j` of the dashboard figure once axes from `count` on are hidden. */
  function FinalAxis(view: Columns, configs: seq<PlotConfig>, lib: seq<Library>, j: nat, count: nat): (a: Axis)
    requires |lib| == |configs|
    ensures a.visible <==> j < count
    ensures j < |configs| ==> a.title == DashboardAttempt(view, configs[j], lib[j]).axis.title &&
                              a.plotted == DashboardAttempt(view, configs[j], lib[j]).axis.plotted
    ensures |configs| <= j ==> a.title.None? && !a.plotted
  {
    (if j < |configs| then DashboardAttempt(view, configs[j], lib[j]).axis else BlankAxis).(visible := j < count)
  }

  /** The figure the dashboard returns, as its axes, or `None`. */
  datatype DashboardImage = NoImage | Image(axes: seq<Axis>)

  /** The body of the dashboard loop: the configuration is tried on axis `i`, and
      `plotted_count` grows by one when it counts. */
  method DrawConfig(view: Columns, c: PlotConfig, lib: Library, axes: array<Axis>, i: nat, plotted: nat) returns (count: nat)
    requires i < axes.Length
    modifies axes
    ensures axes[..] == old(axes[..])[i := DashboardAttempt(view, c, lib).axis]
    ensures count == plotted + if DashboardAttempt(view, c, lib).counted then 1 else 0
  {
    var attempt := DashboardAttempt(view, c, lib);
    axes[i] := attempt.axis;
    count := plotted;
    if attempt.counted {
      count := count + 1;
    }
  }

  /** The dashboard loop: each configuration is tried on its own axis, and `plotted_count`
      counts those whose plotting method returned. */
  method PlotConfigs(view: Columns, configs: seq<PlotConfig>, lib: seq<Library>, axes: array<Axis>) returns (plotted: nat)
    requires |lib| == |configs| && |configs| <= axes.Length
    requires forall j | 0 <= j < axes.Length :: axes[j] == BlankAxis
    modifies axes
    ensures plotted == PlottedCount(view, configs, lib)
    ensures forall j | 0 <= j < |configs| :: axes[j] == DashboardAttempt(view, configs[j], lib[j]).axis
    ensures forall j | |configs| <= j < axes.Length :: axes[j] == BlankAxis
  {
    plotted := 0;
    var i := 0;
    while i < |configs|
      invariant 0 <= i <= |configs|
      invariant plotted == PlottedCount(view, configs[..i], lib[..i])
      invariant forall j | 0 <= j < i :: axes[j] == DashboardAttempt(view, configs[j], lib[j]).axis
      invariant forall j | i <= j < axes.Length :: axes[j] == BlankAxis
    {
      ghost var before := axes[..];
      var attempt := DashboardAttempt(view, configs[i], lib[i]);
      plotted := DrawConfig(view, configs[i], lib[i], axes, i, plotted);
      assert forall j | 0 <= j < axes.Length :: axes[j] == (if j == i then attempt.axis else before[j]);
      assert configs[..i + 1][..i] == configs[..i] && lib[..i + 1][..i] == lib[..i];
      assert PlottedCount(view, configs[..i + 1], lib[..i + 1]) ==
             PlottedCount(view, configs[..i], lib[..i]) + if attempt.counted then 1 else 0;
      i := i + 1;
    }
    assert configs[..i] == configs && lib[..i] == lib;
  }

  /** `handle_generate_dashboard_plot` with the plotting instance built over the shaped table.
      `lib[i]` says how the library calls of the i-th configuration go and `saveOk` whether
      the figure can be saved. */
  method GenerateDashboardPlot(base: Table, configs: seq<PlotConfig>, includeCols: Option<seq<string>>,
                               excludeCols: Option<seq<string>>, lib: seq<Library>, saveOk: bool)
    returns (r: DashboardImage)
    requires Valid(base) && |lib| == |configs|
    ensures var t := GetShapedDataframe(base, includeCols, excludeCols);
            var view := ColumnsOf(t);
            r.Image? <==> !(IsEmpty(t) && Requested(includeCols, excludeCols)) && configs != [] &&
                          PlottedCount(view, configs, lib) > 0 && saveOk
    ensures r.Image? ==>
              var view := ColumnsOf(GetShapedDataframe(base, includeCols, excludeCols));
              var count := PlottedCount(view, configs, lib);
              var (rows, cols) := SquareGrid(|configs|);
              |r.axes| == rows * cols &&
              forall j | 0 <= j < |r.axes| :: r.axes[j] == FinalAxis(view, configs, lib, j, count)
  {
    var t := GetShapedDataframe(base, includeCols, excludeCols);
    if IsEmpty(t) && Requested(includeCols, excludeCols) {
      return NoImage;
    }
    var n := |configs|;
    if n == 0 {
      return NoImage;
    }
    var (rows, cols) := SquareGrid(n);
    var view := ColumnsOf(t);
    var axes := new Axis[rows * cols](_ => BlankAxis);
    var plotted := PlotConfigs(view, configs, lib, axes);
    if plotted == 0 {
      return NoImage;
    }
    ghost var drawn := axes[..];
    HideFrom(axes, plotted);
    if !saveOk {
      return NoImage;
    }
    r := Image(axes[..]);
    forall j | 0 <= j < |r.axes| ensures r.axes[j] == FinalAxis(view, configs, lib, j, plotted) {
      assert j < n ==> drawn[j] == DashboardAttempt(view, configs[j], lib[j]).axis;
    }
  }

  /** Configurations of unknown type, `displot` among them, never count, so a dashboard of
      only such configurations has no image. */
  lemma {:induction false} UnknownTypesNeverCount(view: Columns, configs: seq<PlotConfig>, lib: seq<Library>)
    requires |lib| == |configs|
    requires forall i | 0 <= i < |configs| :: configs[i].plotType !in PlotTypes
    ensures PlottedCount(view, configs, lib) == 0
    decreases |configs|
  {
    if configs != [] {
      var k := |configs| - 1;
      UnknownTypesNeverCount(view, configs[..k], lib[..k]);
      DashboardAttemptSpec(view, configs[k], lib[k]);
    }
  }

  lemma DisplotIsNotADashboardType()
    ensures "displot" !in PlotTypes
  {
  }

  /** A histogram of an existing column draws and counts when the library draws, whatever
      the categorical columns, provided the other required columns it names exist. */
  lemma HistogramCounts(view: Columns, p: PlotParameter, lib: Library)
    requires p.colName.Some? && p.colName.value in view.all && lib.drawOk
    requires RequiredPresent(PlotParams(p), view.all)
    ensures DashboardAttempt(view, PlotConfig("histogram", p), lib) ==
            Attempt(Axis(Some("Histogram of " + p.colName.value), true, true), true)
  {
    var kw := PlotParams(p);
    assert kw[ColName] == Str(p.colName.value);
    assert Ax !in kw;
    MissingColumnsSpec(kw, view.all);
    assert "histogram" in PlotTypes;
    var o := Dispatch("histogram", view, kw, lib);
    assert o == Histogram(view, kw, lib);
    assert o == Drawn("Histogram of " + p.colName.value);
  }

  /** Of the required keys, a configuration that sets only the column of a histogram names
      only that column. */
  lemma OnlyColumnRequired(p: PlotParameter)
    requires p.colNameX.None? && p.colNameY.None? && p.xCol.None? && p.yCol.None?
    ensures forall names | p.colName.Some? && p.colName.value in names :: RequiredPresent(PlotParams(p), names)
  {
  }

  lemma SquareGridOfTwo()
    ensures SquareGrid(2) == (1, 2)
  {
    assert CeilSqrtFrom(2, 1) == CeilSqrtFrom(2, 2) == 2;
  }

  /** Hiding is by count, not by failure: when a configuration of unknown type (a `displot`,
      say) comes before one that draws, the count is one, so on the 1 x 2 grid the second axis
      is hidden although it holds the plot. */
  lemma DrawnAxisHiddenByCount(view: Columns, c0: PlotConfig, c1: PlotConfig, l0: Library, l1: Library)
    requires c0.plotType !in PlotTypes && DashboardAttempt(view, c1, l1).axis.plotted
    ensures SquareGrid(2) == (1, 2)
    ensures PlottedCount(view, [c0, c1], [l0, l1]) == 1
    ensures FinalAxis(view, [c0, c1], [l0, l1], 1, 1) == DashboardAttempt(view, c1, l1).axis.(visible := false)
  {
    SquareGridOfTwo();
    DashboardAttemptSpec(view, c0, l0);
    DashboardAttemptSpec(view, c1, l1);
    var configs, lib := [c0, c1], [l0, l1];
    assert configs[..1] == [c0] && lib[..1] == [l0];
    assert configs[..1][..0] == [] && lib[..1][..0] == [];
  }

  /** `handle_generate_dashboard_plot` as written: past the empty-table guard it builds
      `StaticPlots(df.copy())`, which raises, so no request gets a figure. */
  function DashboardPlotAsWritten(base: Table, configs: seq<PlotConfig>, includeCols: Option<seq<string>>,
                                  excludeCols: Option<seq<string>>): (r: Result<DashboardImage>)
    requires Valid(base)
    ensures r.Ok? <==> IsEmpty(GetShapedDataframe(base, includeCols, excludeCols)) && Requested(includeCols, excludeCols)
    ensures r.Ok? ==> r.value == NoImage
    ensures r.Err? ==> r.error == InstanceError
  {
    var t := GetShapedDataframe(base, includeCols, excludeCols);
    if IsEmpty(t) && Requested(includeCols, excludeCols) then Ok(NoImage)
    else Err(InstanceError)
  }

  /** A one-histogram dashboard over an existing column: the corrected handler counts the plot
      and so returns a figure, while the handler as written raises. */
  lemma DashboardAsWrittenRaises()
    ensures var base := Table(["carat"], [Float64], [[Float("0.23")]]);
            var configs := [PlotConfig("histogram", DefaultPlotParameter.(colName := Some("carat")))];
            DashboardPlotAsWritten(base, configs, None, None) == Err(InstanceError) &&
            PlottedCount(ColumnsOf(GetShapedDataframe(base, None, None)), configs, [Library(true, true)]) == 1 &&
            !IsEmpty(GetShapedDataframe(base, None, None))
  {
    var base := Table(["carat"], [Float64], [[Float("0.23")]]);
    var p := DefaultPlotParameter.(colName := Some("carat"));
    assert GetShapedDataframe(base, None, None) == base;
    OnlyColumnRequired(p);
    HistogramCounts(ColumnsOf(base), p, Library(true, true));
    var configs := [PlotConfig("histogram", p)];
    assert configs[..0] == [];
  }

  // ---------------------------------------------------------------- the distribution plot

  /** `effective_include`: the include list (or nothing), then the plotted column and the hue
      when they are not already in it. The handler computes it and never uses it. */
  function EffectiveInclude(includeCols: Option<seq<string>>, col: string, hue: Option<string>): (r: seq<string>)
    ensures var given := if includeCols.Some? then includeCols.value else [];
            |r| >= |given| && r[..|given|] == given &&
            col in r && (hue.Some? && hue.value != "" ==> hue.value in r) &&
            (forall x | x in r :: x in given || x == col || (hue.Some? && x == hue.value)) &&
            (Distinct(given) ==> Distinct(r))
  {
    var given := if includeCols.Some? then includeCols.value else [];
    var withCol := if col in given then given else given + [col];
    if hue.Some? && hue.value != "" && hue.value !in withCol then withCol + [hue.value] else withCol
  }

  /** A displot figure; the handler never returns one. */
  datatype DisplotImage = DisplotImage(col: string)

  /** `handle_generate_displot` as written: the column is checked, then the hue, then emptiness;
      past them it builds `StaticPlots(df.copy())` outside its `try`, which raises. */
  function HandleGenerateDisplot(base: Table, col: string, kind: string, hue: Option<string>,
                                 includeCols: Option<seq<string>>, excludeCols: Option<seq<string>>)
    : (r: Result<Option<DisplotImage>>)
    requires Valid(base)
    ensures var t := GetShapedDataframe(base, includeCols, excludeCols);
            (col !in t.names ==> r == Err(ValueError("Column '" + col + "' for displot not found in the shaped DataFrame."))) &&
            (col in t.names && hue.Some? && hue.value != "" && hue.value !in t.names ==>
               r == Err(ValueError("Hue column '" + hue.value + "' for displot not found in the shaped DataFrame."))) &&
            (col in t.names && (hue.Some? && hue.value != "" ==> hue.value in t.names) ==>
               r == if IsEmpty(t) then Ok(None) else Err(InstanceError))
    ensures r.Ok? ==> r.value.None?
  {
    var t := GetShapedDataframe(base, includeCols, excludeCols);
    if col !in t.names then Err(ValueError("Column '" + col + "' for displot not found in the shaped DataFrame."))
    else if hue.Some? && hue.value != "" && hue.value !in t.names then
      Err(ValueError("Hue column '" + hue.value + "' for displot not found in the shaped DataFrame."))
    else if IsEmpty(t) then Ok(None)
    else Err(InstanceError)
  }
}
