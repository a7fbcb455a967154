/** The newer dashboard page: the session state it keeps across reruns, the parameters of a
    single plot as its widgets build them, the readiness check in front of the request, the
    request itself, and the payloads of the cross tabulation and of the filter. Widget
    values are inputs. */
module NewDashboard {
  import opened Wrappers
  import opened Text
  import opened Schemas
  import Frames
  import Client
  import StaticPlots
  import ApiPlotHandlers

  // ---------------------------------------------------------------- session state

  /** `["select_column", "fallback_A", "fallback_B", "fallback_C"]` */
  const SessionFallback: seq<string> := ["select_column", "fallback_A", "fallback_B", "fallback_C"]
  /** The first fallback name, as the numerical columns. */
  const NumericalFallback: seq<string> := ["select_column"]
  /** The second fallback name, as the categorical columns. */
  const CategoricalFallback: seq<string> := ["fallback_A"]

  /** The flags that show or hide the sections of the statistics and data tabs. */
  const SectionFlags: set<string> := {"show_numerical_summary", "show_categorical_summary", "show_unique_counts",
                                      "show_frequency_table_section", "show_crosstab_section", "show_dataset_shape",
                                      "show_dataset_info", "show_filtered_data_view"}

  /** `st.session_state.get(name, False)` */
  function FlagOf(flags: map<string, bool>, name: string): bool {
    name in flags && flags[name]
  }

  /** The flags after a toggle button: the one flag negated, every other flag kept. */
  function Toggled(flags: map<string, bool>, name: string): (r: map<string, bool>)
    ensures FlagOf(r, name) == !FlagOf(flags, name)
    ensures forall other | other != name :: FlagOf(r, other) == FlagOf(flags, other)
  {
    flags[name := !FlagOf(flags, name)]
  }

  /** Pressing a toggle button twice shows what was shown before. */
  lemma ToggleTwice(flags: map<string, bool>, name: string)
    ensures forall x :: FlagOf(Toggled(Toggled(flags, name), name), x) == FlagOf(flags, x)
  {
    forall x ensures FlagOf(Toggled(Toggled(flags, name), name), x) == FlagOf(flags, x) {
      if x == name {
        assert FlagOf(Toggled(flags, name), name) == !FlagOf(flags, name);
      }
    }
  }

  const Fallbacks := Client.ColumnLists(SessionFallback, NumericalFallback, CategoricalFallback)

  /** The column lists a new session starts with: each list from the response, with its own
      fallback when the key is missing; all three fallbacks when the response failed, is an
      empty dictionary or gives no column at all. The list of all columns is never empty. */
  function InitialColumns(response: Option<Client.ColumnResponse>): (r: Client.ColumnLists)
    ensures r.all != []
    ensures response.None? || !Client.NonEmpty(response.value) ==> r == Fallbacks
    ensures response.Some? && Client.NonEmpty(response.value) ==>
              if Client.GetOr(response.value.allColumns, SessionFallback) == [] then r == Fallbacks
              else r.all == Client.GetOr(response.value.allColumns, SessionFallback) &&
                   r.numerical == Client.GetOr(response.value.numerical, NumericalFallback) &&
                   r.categorical == Client.GetOr(response.value.categorical, CategoricalFallback)
  {
    if response.Some? && Client.NonEmpty(response.value) then
      var lists := Client.ColumnLists(Client.GetOr(response.value.allColumns, SessionFallback),
                               Client.GetOr(response.value.numerical, NumericalFallback),
                               Client.GetOr(response.value.categorical, CategoricalFallback));
      if lists.all == [] then Fallbacks else lists
    else Fallbacks
  }

  /** The session state the page keeps across reruns. */
  class SessionState {
    var initialized: bool
    var allColumns: seq<string>
    var numericalCols: seq<string>
    var categoricalCols: seq<string>
    var flags: map<string, bool>

    /** A new session: nothing initialized, no flag set. */
    constructor ()
      ensures !initialized && allColumns == [] && numericalCols == [] && categoricalCols == [] && flags == map[]
    {
      initialized := false;
      allColumns, numericalCols, categoricalCols := [], [], [];
      flags := map[];
    }

    /** The initialization block, run once per session: the column lists come from the
        response, each with its own fallback when missing; an empty list of all columns or a
        failed or empty response brings back all three fallbacks. Every section starts hidden. */
    method Initialize(response: Option<Client.ColumnResponse>)
      modifies this
      ensures old(initialized) ==> allColumns == old(allColumns) && numericalCols == old(numericalCols) &&
                                   categoricalCols == old(categoricalCols) && flags == old(flags) && initialized
      ensures !old(initialized) ==>
                initialized && flags == map name | name in SectionFlags :: false &&
                Client.ColumnLists(allColumns, numericalCols, categoricalCols) == InitialColumns(response)
      ensures allColumns != [] || (old(initialized) && old(allColumns) == [])
    {
      if initialized {
        return;
      }
      if response.Some? && Client.NonEmpty(response.value) {
        allColumns := Client.GetOr(response.value.allColumns, SessionFallback);
        numericalCols := Client.GetOr(response.value.numerical, NumericalFallback);
        categoricalCols := Client.GetOr(response.value.categorical, CategoricalFallback);
        if allColumns == [] {
          allColumns := SessionFallback;
          numericalCols := NumericalFallback;
          categoricalCols := CategoricalFallback;
        }
      } else {
        allColumns := SessionFallback;
        numericalCols := NumericalFallback;
        categoricalCols := CategoricalFallback;
      }
      flags := map name | name in SectionFlags :: false;
      initialized := true;
    }

    function Shown(name: string): bool
      reads this
    {
      FlagOf(flags, name)
    }

    /** A toggle button: `st.session_state[var] = not st.session_state.get(var, False)`. */
    method Toggle(name: string)
      modifies this
      ensures flags == Toggled(old(flags), name)
      ensures Shown(name) == !old(Shown(name))
      ensures initialized == old(initialized) && allColumns == old(allColumns) &&
              numericalCols == old(numericalCols) && categoricalCols == old(categoricalCols)
    {
      flags := Toggled(flags, name);
    }
  }

  // ---------------------------------------------------------------- plot parameters

  /** The plot types the page offers. */
  datatype PlotChoice =
    | ChooseHistogram | ChooseKde | ChooseScatter | ChooseBarChart | ChooseCountPlot
    | ChooseCrosstabHeatmap | ChooseDisplot

  function ChoiceName(c: PlotChoice): string {
    match c
    case ChooseHistogram => "histogram"
    case ChooseKde => "kde"
    case ChooseScatter => "scatter"
    case ChooseBarChart => "bar_chart"
    case ChooseCountPlot => "count_plot"
    case ChooseCrosstabHeatmap => "crosstab_heatmap"
    case ChooseDisplot => "displot"
  }

  /** The choices with a hue selector. */
  const HueChoices: set<PlotChoice> := {ChooseKde, ChooseScatter, ChooseBarChart, ChooseCountPlot, ChooseDisplot}

  /** The values of the widgets of the plot controls. A select box with a `None` option gives
      an `Option`; a slider over floats gives its printed form; `kdeLineColor` is `None` while
      the colour picker holds the default it was offered. */
  datatype Widgets = Widgets(
    col: Option<string>, hue: Option<string>,
    bins: int, kde: bool, kdeLineColor: Option<string>, color: string, edgeText: string, stat: string,
    fill: bool, alpha: string, linewidth: string,
    y: Option<string>, markerSize: int,
    estimator: Option<string>, errorbar: Option<string>, paletteText: string,
    dodge: bool,
    indexSel: seq<string>, columnSel: seq<string>, annot: bool, fmtText: string, cmapText: string,
    kind: string)

  /** A dictionary of UI parameters: a key mapped to `None` holds Python's `None`. */
  type UiParams = map<Key, Option<ParamValue>>

  function OptStr(o: Option<string>): (r: Option<ParamValue>)
    ensures r.Some? <==> o.Some?
  {
    if o.Some? then Some(Str(o.value)) else None
  }

  /** The colour the KDE line picker offers first. */
  const KdeDefault := "#FF5733"
  const KdeAlternative := "#33FF57"
  const BarDefault := "#1f77b4"

  /** The colour offered for the KDE line: the alternative when the bar colour already in the
      parameters is the usual one, which it never is, since the bar colour is set afterwards. */
  function KdeLineOffer(params: UiParams): string {
    var current := if Color in params && params[Color].Some? then Lower(Display(params[Color].value)) else BarDefault;
    if current == Lower(KdeDefault) then KdeAlternative else KdeDefault
  }

  /** The edge colour: `None` for a blank text or any spelling of "none", the text otherwise. */
  function EdgeColorValue(text: string): (r: Option<ParamValue>)
    ensures r.None? <==> text == "" || Lower(Strip(text)) == "none"
    ensures r.Some? ==> r.value == Str(text)
  {
    if text == "" || Lower(Strip(text)) == "none" then None else Some(Str(text))
  }

  /** The keys a choice may set. */
  function KeysOf(c: PlotChoice): set<Key> {
    match c
    case ChooseHistogram => {ColName, Bins, Kde, KdeLineCollor, Color, Edgecolor, Stat}
    case ChooseKde => {ColName, HueCol, Fill, Alpha, Linewidth}
    case ChooseScatter => {HueCol, ColNameX, ColNameY, Alpha, MarkerSize}
    case ChooseBarChart => {HueCol, XCol, YCol, EstimatorKey, ErrorbarKey, Palette}
    case ChooseCountPlot => {HueCol, XCol, Dodge, Palette}
    case ChooseCrosstabHeatmap => {IndexNamesCt, ColumnNamesCt, Annot, Fmt, Cmap}
    case ChooseDisplot => {ColName, HueCol, Kind}
  }

  /** The boolean keys kept even when `None`. */
  const BoolKeys: set<Key> := {Fill, Annot, Kde, Cbar, Dodge}

  /** Whether a key is set once the controls are rendered, and to what. */
  datatype Slot = Unset | Set(v: Option<ParamValue>)

  /** What a dictionary holds under a key. */
  function Lookup(r: UiParams, k: Key): Slot {
    if k in r then Set(r[k]) else Unset
  }

  function SetIf(b: bool, v: Option<ParamValue>): Slot {
    if b then Set(v) else Unset
  }

  /** `{k: x}` for a chosen `x`: set exactly when a non-empty value is chosen. */
  function ChosenSlot(x: Option<string>): Slot {
    if Client.Chosen(x) then Set(Some(Str(x.value))) else Unset
  }

  /** `{k: text.strip()}`: set exactly when the text is not blank. */
  function StrippedSlot(text: string): Slot {
    if Strip(text) != "" then Set(Some(Str(Strip(text)))) else Unset
  }

  // What the controls of each type leave: the keys they may set, and under each of them.

  /** Histogram: the column, bins, the KDE overlay and, only with it, its line colour, which
      defaults to `KdeDefault`; the bar colour, the edge colour and the statistic. */
  predicate HistogramParams(w: Widgets, r: UiParams) {
    r.Keys <= KeysOf(ChooseHistogram) &&
    Lookup(r, ColName) == Set(OptStr(w.col)) &&
    Lookup(r, Bins) == Set(Some(Whole(w.bins))) &&
    Lookup(r, Kde) == Set(Some(ParamValue.Flag(w.kde))) &&
    Lookup(r, KdeLineCollor) == SetIf(w.kde, Some(Str(if w.kdeLineColor.Some? then w.kdeLineColor.value else KdeDefault))) &&
    Lookup(r, Color) == Set(Some(Str(w.color))) &&
    Lookup(r, Edgecolor) == Set(EdgeColorValue(w.edgeText)) &&
    Lookup(r, Stat) == Set(Some(Str(w.stat)))
  }

  /** KDE: the column, the hue, fill, alpha and line width. */
  predicate KdeParams(w: Widgets, r: UiParams) {
    r.Keys <= KeysOf(ChooseKde) &&
    Lookup(r, ColName) == Set(OptStr(w.col)) &&
    Lookup(r, HueCol) == Set(OptStr(w.hue)) &&
    Lookup(r, Fill) == Set(Some(ParamValue.Flag(w.fill))) &&
    Lookup(r, Alpha) == Set(Some(Number(w.alpha))) &&
    Lookup(r, Linewidth) == Set(Some(Number(w.linewidth)))
  }

  /** Scatter: no `col_name`; the chosen columns as `col_name_x` and `col_name_y`. */
  predicate ScatterParams(w: Widgets, r: UiParams) {
    r.Keys <= KeysOf(ChooseScatter) &&
    Lookup(r, HueCol) == Set(OptStr(w.hue)) &&
    Lookup(r, ColNameX) == ChosenSlot(w.col) &&
    Lookup(r, ColNameY) == ChosenSlot(w.y) &&
    Lookup(r, Alpha) == Set(Some(Number(w.alpha))) &&
    Lookup(r, MarkerSize) == Set(Some(Whole(w.markerSize)))
  }

  /** Bar chart: no `col_name`; the chosen column as `x_col`, and the optional choices. */
  predicate BarChartParams(w: Widgets, r: UiParams) {
    r.Keys <= KeysOf(ChooseBarChart) &&
    Lookup(r, HueCol) == Set(OptStr(w.hue)) &&
    Lookup(r, XCol) == ChosenSlot(w.col) &&
    Lookup(r, YCol) == ChosenSlot(w.y) &&
    Lookup(r, EstimatorKey) == ChosenSlot(w.estimator) &&
    Lookup(r, ErrorbarKey) == ChosenSlot(w.errorbar) &&
    Lookup(r, Palette) == StrippedSlot(w.paletteText)
  }

  /** Count plot: no `col_name`; the chosen column as `x_col`, dodge and the palette. */
  predicate CountPlotParams(w: Widgets, r: UiParams) {
    r.Keys <= KeysOf(ChooseCountPlot) &&
    Lookup(r, HueCol) == Set(OptStr(w.hue)) &&
    Lookup(r, XCol) == ChosenSlot(w.col) &&
    Lookup(r, Dodge) == Set(Some(ParamValue.Flag(w.dodge))) &&
    Lookup(r, Palette) == StrippedSlot(w.paletteText)
  }

  /** Heatmap: no column and no hue; the selections when not empty, annot, fmt and cmap. */
  predicate CrosstabHeatmapParams(w: Widgets, r: UiParams) {
    r.Keys <= KeysOf(ChooseCrosstabHeatmap) &&
    Lookup(r, IndexNamesCt) == SetIf(w.indexSel != [], Some(Names(w.indexSel))) &&
    Lookup(r, ColumnNamesCt) == SetIf(w.columnSel != [], Some(Names(w.columnSel))) &&
    Lookup(r, Annot) == Set(Some(ParamValue.Flag(w.annot))) &&
    Lookup(r, Fmt) == StrippedSlot(w.fmtText) &&
    Lookup(r, Cmap) == StrippedSlot(w.cmapText)
  }

  /** Displot: the column, the hue and the kind. */
  predicate DisplotParams(w: Widgets, r: UiParams) {
    r.Keys <= KeysOf(ChooseDisplot) &&
    Lookup(r, ColName) == Set(OptStr(w.col)) &&
    Lookup(r, HueCol) == Set(OptStr(w.hue)) &&
    Lookup(r, Kind) == Set(Some(Str(w.kind)))
  }

  /** The parameters are the ones the controls of choice `c` leave. */
  predicate Describes(c: PlotChoice, w: Widgets, r: UiParams) {
    match c
    case ChooseHistogram => HistogramParams(w, r)
    case ChooseKde => KdeParams(w, r)
    case ChooseScatter => ScatterParams(w, r)
    case ChooseBarChart => BarChartParams(w, r)
    case ChooseCountPlot => CountPlotParams(w, r)
    case ChooseCrosstabHeatmap => CrosstabHeatmapParams(w, r)
    case ChooseDisplot => DisplotParams(w, r)
  }

  /** The controls common to all types: the primary column unless the type is a heatmap,
      then the hue for the types that take one. */
  method CommonControls(c: PlotChoice, w: Widgets) returns (r: UiParams)
    ensures r.Keys <= {ColName, HueCol}
    ensures Lookup(r, ColName) == SetIf(c != ChooseCrosstabHeatmap, OptStr(w.col))
    ensures Lookup(r, HueCol) == SetIf(c in HueChoices, OptStr(w.hue))
  {
    r := map[];
    if c != ChooseCrosstabHeatmap {
      r := r[ColName := OptStr(w.col)];
    }
    if c in HueChoices {
      r := r[HueCol := OptStr(w.hue)];
    }
  }

  method HistogramControls(w: Widgets) returns (r: UiParams)
    ensures HistogramParams(w, r)
  {
    r := CommonControls(ChooseHistogram, w);
    r := r[Bins := Some(Whole(w.bins))][Kde := Some(ParamValue.Flag(w.kde))];
    if w.kde {
      var offered := KdeLineOffer(r);
      assert Lower(KdeDefault)[1] == 'f';
      r := r[KdeLineCollor := Some(Str(if w.kdeLineColor.Some? then w.kdeLineColor.value else offered))];
    }
    r := r[Color := Some(Str(w.color))];
    r := r[Edgecolor := EdgeColorValue(w.edgeText)];
    r := r[Stat := Some(Str(w.stat))];
  }

  method KdeControls(w: Widgets) returns (r: UiParams)
    ensures KdeParams(w, r)
  {
    r := CommonControls(ChooseKde, w);
    r := r[Fill := Some(ParamValue.Flag(w.fill))][Alpha := Some(Number(w.alpha))][Linewidth := Some(Number(w.linewidth))];
  }

  /** `x = params.pop('col_name', None)`, then `if x: params[k] = x`. */
  method RenamePrimary(params: UiParams, k: Key) returns (r: UiParams)
    ensures var x := if ColName in params then params[ColName] else None;
            r == if x.Some? && StaticPlots.Truthy(x.value) then (params - {ColName})[k := x] else params - {ColName}
  {
    var x := if ColName in params then params[ColName] else None;
    r := params - {ColName};
    if x.Some? && StaticPlots.Truthy(x.value) {
      r := r[k := x];
    }
  }

  method ScatterControls(w: Widgets) returns (r: UiParams)
    ensures ScatterParams(w, r)
  {
    r := CommonControls(ChooseScatter, w);
    r := RenamePrimary(r, ColNameX);
    if w.y.Some? && w.y.value != "" {
      r := r[ColNameY := Some(Str(w.y.value))];
    }
    r := r[Alpha := Some(Number(w.alpha))][MarkerSize := Some(Whole(w.markerSize))];
  }

  method BarChartControls(w: Widgets) returns (r: UiParams)
    ensures BarChartParams(w, r)
  {
    r := CommonControls(ChooseBarChart, w);
    r := RenamePrimary(r, XCol);
    if w.y.Some? && w.y.value != "" {
      r := r[YCol := Some(Str(w.y.value))];
    }
    r := BarChartOptions(r, w);
  }

  /** The optional choices of a bar chart, each set only when made. */
  method BarChartOptions(r0: UiParams, w: Widgets) returns (r: UiParams)
    requires r0.Keys <= {HueCol, XCol, YCol}
    ensures r.Keys <= KeysOf(ChooseBarChart)
    ensures Lookup(r, HueCol) == Lookup(r0, HueCol) && Lookup(r, XCol) == Lookup(r0, XCol) &&
            Lookup(r, YCol) == Lookup(r0, YCol)
    ensures Lookup(r, EstimatorKey) == ChosenSlot(w.estimator) && Lookup(r, ErrorbarKey) == ChosenSlot(w.errorbar) &&
            Lookup(r, Palette) == StrippedSlot(w.paletteText)
  {
    r := r0;
    if w.estimator.Some? && w.estimator.value != "" {
      r := r[EstimatorKey := Some(Str(w.estimator.value))];
    }
    if w.errorbar.Some? && w.errorbar.value != "" {
      r := r[ErrorbarKey := Some(Str(w.errorbar.value))];
    }
    var palette := Strip(w.paletteText);
    if palette != "" {
      r := r[Palette := Some(Str(palette))];
    }
  }

  method CountPlotControls(w: Widgets) returns (r: UiParams)
    ensures CountPlotParams(w, r)
  {
    r := CommonControls(ChooseCountPlot, w);
    r := RenamePrimary(r, XCol);
    r := r[Dodge := Some(ParamValue.Flag(w.dodge))];
    var palette := Strip(w.paletteText);
    if palette != "" {
      r := r[Palette := Some(Str(palette))];
    }
  }

  method CrosstabHeatmapControls(w: Widgets) returns (r: UiParams)
    ensures CrosstabHeatmapParams(w, r)
  {
    r := CommonControls(ChooseCrosstabHeatmap, w);
    if w.indexSel != [] {
      r := r[IndexNamesCt := Some(Names(w.indexSel))];
    }
    if w.columnSel != [] {
      r := r[ColumnNamesCt := Some(Names(w.columnSel))];
    }
    r := r[Annot := Some(ParamValue.Flag(w.annot))];
    var fmt := Strip(w.fmtText);
    if fmt != "" {
      r := r[Fmt := Some(Str(fmt))];
    }
    var cmap := Strip(w.cmapText);
    if cmap != "" {
      r := r[Cmap := Some(Str(cmap))];
    }
  }

  method DisplotControls(w: Widgets) returns (r: UiParams)
    ensures DisplotParams(w, r)
  {
    r := CommonControls(ChooseDisplot, w);
    r := r[Kind := Some(Str(w.kind))];
  }

  /** The parameters of the plot, built widget by widget as the page renders the controls of
      the chosen type. */
  method PlotParamsUi(c: PlotChoice, w: Widgets) returns (r: UiParams)
    ensures Describes(c, w, r)
  {
    match c
    case ChooseHistogram => r := HistogramControls(w);
    case ChooseKde => r := KdeControls(w);
    case ChooseScatter => r := ScatterControls(w);
    case ChooseBarChart => r := BarChartControls(w);
    case ChooseCountPlot => r := CountPlotControls(w);
    case ChooseCrosstabHeatmap => r := CrosstabHeatmapControls(w);
    case ChooseDisplot => r := DisplotControls(w);
  }

  // ---------------------------------------------------------------- readiness and request

  /** `params.get(k)` is true. */
  predicate TruthyParam(params: UiParams, k: Key) {
    k in params && params[k].Some? && StaticPlots.Truthy(params[k].value)
  }

  /** The readiness check in front of the request. */
  predicate ReadyToPlot(c: PlotChoice, params: UiParams) {
    (c in {ChooseHistogram, ChooseKde, ChooseDisplot} && TruthyParam(params, ColName)) ||
    (c == ChooseScatter && TruthyParam(params, ColNameX) && TruthyParam(params, ColNameY)) ||
    (c in {ChooseBarChart, ChooseCountPlot} && TruthyParam(params, XCol)) ||
    (c == ChooseCrosstabHeatmap && TruthyParam(params, IndexNamesCt) && TruthyParam(params, ColumnNamesCt))
  }

  /** The parameters each plot type needs before it is requested. */
  function NeededKeys(c: PlotChoice): set<Key> {
    match c
    case ChooseScatter => {ColNameX, ColNameY}
    case ChooseBarChart => {XCol}
    case ChooseCountPlot => {XCol}
    case ChooseCrosstabHeatmap => {IndexNamesCt, ColumnNamesCt}
    case _ => {ColName}
  }

  /** A plot is ready exactly when every parameter its type needs is set and true, whatever
      the other parameters hold. */
  lemma ReadyToPlotNeeds(c: PlotChoice, params: UiParams)
    ensures ReadyToPlot(c, params) <==> forall k | k in NeededKeys(c) :: TruthyParam(params, k)
    ensures forall q: UiParams | (forall k | k in NeededKeys(c) :: k in q <==> k in params) &&
                                 (forall k | k in NeededKeys(c) && k in q :: q[k] == params[k]) ::
              ReadyToPlot(c, q) == ReadyToPlot(c, params)
  {
    match c
    case ChooseScatter =>
      assert ColNameX in NeededKeys(c) && ColNameY in NeededKeys(c);
    case ChooseCrosstabHeatmap =>
      assert IndexNamesCt in NeededKeys(c) && ColumnNamesCt in NeededKeys(c);
    case ChooseBarChart =>
      assert XCol in NeededKeys(c);
    case ChooseCountPlot =>
      assert XCol in NeededKeys(c);
    case _ =>
      assert ColName in NeededKeys(c);
  }

  /** Readiness in terms of the widgets: the primary column is chosen, and for a scatter the
      y column too; a heatmap needs both selections. */
  predicate WidgetsReady(c: PlotChoice, w: Widgets) {
    match c
    case ChooseScatter => Client.Chosen(w.col) && Client.Chosen(w.y)
    case ChooseCrosstabHeatmap => w.indexSel != [] && w.columnSel != []
    case _ => Client.Chosen(w.col)
  }

  /** On the parameters the controls leave, the readiness check is a property of the widgets
      alone. */
  lemma DescribedReadiness(c: PlotChoice, w: Widgets, r: UiParams)
    requires Describes(c, w, r)
    ensures ReadyToPlot(c, r) <==> WidgetsReady(c, w)
  {
  }

  /** The parameters a choice leaves are among its keys; booleans are never `None`, and only
      the primary column, the hue and the edge colour can be. */
  lemma DescribedKeys(c: PlotChoice, w: Widgets, r: UiParams)
    requires Describes(c, w, r)
    ensures forall k | k in r :: k in KeysOf(c)
    ensures forall k | k in r && k in BoolKeys :: r[k].Some?
    ensures forall k | k in r && r[k].None? :: k in {ColName, HueCol, Edgecolor}
  {
    match c
    case ChooseHistogram =>
    case ChooseKde =>
    case ChooseScatter =>
    case ChooseBarChart =>
    case ChooseCountPlot =>
    case ChooseCrosstabHeatmap =>
    case ChooseDisplot =>
  }

  /** `{k: v for k, v in params.items() if v is not None or k in [...]}` */
  function FinalPlotParams(params: UiParams): (r: UiParams)
    ensures forall k | k in params && params[k].Some? :: k in r && r[k] == params[k]
    ensures forall k | k in r :: k in params && r[k] == params[k] && (r[k].Some? || k in BoolKeys)
  {
    map k | k in params && (params[k].Some? || k in BoolKeys) :: params[k]
  }

  /** On the parameters the controls leave, keeping the boolean keys changes nothing: the
      final parameters are exactly the ones that are not `None`. */
  lemma FinalDropsExactlyNone(c: PlotChoice, w: Widgets, r: UiParams)
    requires Describes(c, w, r)
    ensures forall k :: k in FinalPlotParams(r) <==> k in r && r[k].Some?
  {
    DescribedKeys(c, w, r);
  }

  /** The body of the request for one plot, and its query parameters. */
  datatype PlotRequest = PlotRequest(plotType: string, params: UiParams, query: map<string, Client.QueryValue>)

  /** The button: no request unless ready; the request carries the choice's name, the final
      parameters and the column selections that are not empty. */
  function DynamicPlotRequest(c: PlotChoice, params: UiParams, includeColumns: seq<string>, excludeColumns: seq<string>)
    : (r: Option<PlotRequest>)
    ensures r.Some? <==> ReadyToPlot(c, params)
    ensures r.Some? ==> r.value.plotType == ChoiceName(c) && r.value.params == FinalPlotParams(params) &&
                        r.value.query == Client.ColumnQuery(includeColumns, excludeColumns)
  {
    if ReadyToPlot(c, params) then
      Some(PlotRequest(ChoiceName(c), FinalPlotParams(params), Client.ColumnQuery(includeColumns, excludeColumns)))
    else None
  }

  /** A request is sent exactly when the widgets are ready, and then names the chosen column
      under the key its plot type reads. */
  lemma RequestCarriesPrimaryColumn(c: PlotChoice, w: Widgets, r: UiParams, inc: seq<string>, exc: seq<string>)
    requires Describes(c, w, r)
    ensures DynamicPlotRequest(c, r, inc, exc).Some? <==> WidgetsReady(c, w)
    ensures DynamicPlotRequest(c, r, inc, exc).Some? && c != ChooseCrosstabHeatmap ==>
              var key := if c == ChooseScatter then ColNameX else if c in {ChooseBarChart, ChooseCountPlot} then XCol else ColName;
              var sent := DynamicPlotRequest(c, r, inc, exc).value.params;
              key in sent && sent[key] == Some(Str(w.col.value))
  {
    DescribedReadiness(c, w, r);
  }

  /** The page offers a displot, but the dashboard endpoint does not know the type: such a
      request never counts as a plot. */
  lemma DisplotRequestNeverPlots(view: StaticPlots.Columns, p: PlotConfig, lib: StaticPlots.Library)
    requires p.plotType == ChoiceName(ChooseDisplot)
    ensures !ApiPlotHandlers.DashboardAttempt(view, p, lib).counted
  {
    ApiPlotHandlers.DashboardAttemptSpec(view, p, lib);
  }

  // ---------------------------------------------------------------- payloads and defaults

  /** The frequency table's column selector: none without categorical columns, otherwise
      "cut" when offered and the first column else. */
  function FrequencyColumnDefault(categorical: seq<string>): (r: Option<string>)
    ensures r.Some? <==> categorical != []
    ensures r.Some? ==> r.value in categorical
    ensures r.Some? ==> r.value == if "cut" in categorical then "cut" else categorical[0]
  {
    if categorical == [] then None else Some(categorical[Client.PreferredIndex(categorical, "cut")])
  }

  /** The body of a cross tabulation request. */
  datatype CrosstabPayload = CrosstabPayload(indexNames: seq<string>, columnNames: seq<string>, normalize: bool, margins: bool)

  /** No request unless both selections are made. */
  function CrosstabRequest(indexSel: seq<string>, columnSel: seq<string>, normalize: bool, margins: bool)
    : (r: Option<CrosstabPayload>)
    ensures r.Some? <==> indexSel != [] && columnSel != []
    ensures r.Some? ==> r.value == CrosstabPayload(indexSel, columnSel, normalize, margins)
  {
    if indexSel == [] || columnSel == [] then None else Some(CrosstabPayload(indexSel, columnSel, normalize, margins))
  }

  /** The cross tabulation is shown with the index selection as level names: a single index
      column names a single-level index. */
  lemma CrosstabIndexNamed(entries: seq<Client.IndexEntry>, data: seq<seq<Frames.Value>>, name: string)
    requires entries != [] && entries[0].Scalar?
    ensures Client.ReconstructIndex(entries, data, Client.NameList([name])) ==
            Client.Flat(Client.ProcessedIndex(entries), Some(name))
  {
  }

  /** The filter payload: one column and one value when a column is chosen and the value is
      not blank, which is sent as typed; no filter otherwise. */
  function FilterPayload(col: Option<string>, value: string): (r: (seq<string>, seq<string>))
    ensures |r.0| == |r.1| <= 1
    ensures r.0 != [] <==> Client.Chosen(col) && Strip(value) != ""
    ensures r.0 != [] ==> r.0 == [col.value] && r.1 == [value]
  {
    if col.Some? && col.value != "" && Strip(value) != "" then ([col.value], [value]) else ([], [])
  }

  /** The table display of this page, which leaves columns without rows unconverted. */
  method DisplayDfFromApiSplitResponse(r: Client.SplitResponse, names: Client.LevelNames, categorical: seq<string>)
    returns (out: Client.Shown)
    ensures out == Client.Incomplete <==> !Client.Complete(r)
    ensures Client.Complete(r) ==>
              var entries, columns, data := Client.ListOr(r.index).value, Client.ListOr(r.columns).value, Client.ListOr(r.data).value;
              var ix := Client.ReconstructIndex(entries, data, names);
              if Client.Constructible(ix, columns, data)
              then out == Client.Displayed(ix, Client.Stringified(Client.Built(columns, data), Frames.KeepIn(categorical, columns), true))
              else out == Client.ConstructionError
  {
    out := Client.DisplaySplitResponse(r, names, categorical, true);
  }
}
