/** The request models of the plotting API: the parameters of one plot and a plot
    configuration, and the values a parameter dictionary can hold. */
module Schemas {
  import opened Wrappers
  import opened Text

  /** A value in a keyword-argument dictionary. A float keeps its printed form; a dict of
      keyword arguments keeps its printed form too. */
  datatype ParamValue =
    | Str(s: string)
    | Whole(i: int)
    | Number(repr: string)
    | Flag(b: bool)
    | Names(names: seq<string>)
    | Pair(first: string, second: int)
    | Keywords(repr: string)

  /** A keyword name: the fields of the parameter model, the other keywords the plotting
      methods read, the keywords the dashboard pages send, and any other name. `Other` never
      holds one of the names listed before it. */
  datatype Key =
    | ColName | Color | HueCol | Bins | ColNameX | ColNameY | Alpha | XCol | YCol
    | EstimatorKey | ErrorbarKey | IndexNamesCt | ColumnNamesCt | Annot | Fmt | Cmap | AnnotKws
    | Hue | NormalizeCt | Ax
    | Kde | KdeLineCollor | Edgecolor | Stat | Fill | Linewidth | MarkerSize | Palette | Dodge | Kind | Cbar
    | Other(name: string)

  /** The keyword as spelled in a call. */
  function KeyName(k: Key): string {
    match k
    case ColName => "col_name"
    case Color => "color"
    case HueCol => "hue_col"
    case Bins => "bins"
    case ColNameX => "col_name_x"
    case ColNameY => "col_name_y"
    case Alpha => "alpha"
    case XCol => "x_col"
    case YCol => "y_col"
    case EstimatorKey => "estimator"
    case ErrorbarKey => "errorbar"
    case IndexNamesCt => "index_names_ct"
    case ColumnNamesCt => "column_names_ct"
    case Annot => "annot"
    case Fmt => "fmt"
    case Cmap => "cmap"
    case AnnotKws => "annot_kws"
    case Hue => "hue"
    case NormalizeCt => "normalize_ct"
    case Ax => "ax"
    case Kde => "kde"
    case KdeLineCollor => "kde_line_collor"
    case Edgecolor => "edgecolor"
    case Stat => "stat"
    case Fill => "fill"
    case Linewidth => "linewidth"
    case MarkerSize => "s"
    case Palette => "palette"
    case Dodge => "dodge"
    case Kind => "kind"
    case Cbar => "cbar"
    case Other(name) => name
  }

  /** `f"{v}"` for a parameter value. */
  function Display(v: ParamValue): string {
    match v
    case Str(s) => s
    case Whole(i) => IntToString(i)
    case Number(r) => r
    case Flag(b) => if b then "True" else "False"
    case Names(ns) => "[" + Join(Quoted(ns), ", ") + "]"
    case Pair(a, b) => "('" + a + "', " + IntToString(b) + ")"
    case Keywords(r) => r
  }

  function Quoted(ns: seq<string>): (r: seq<string>)
    ensures |r| == |ns| && forall i | 0 <= i < |ns| :: r[i] == "'" + ns[i] + "'"
  {
    seq(|ns|, i requires 0 <= i < |ns| => "'" + ns[i] + "'")
  }

  /** The `errorbar` field: a `(method, level)` tuple or a method name. */
  datatype ErrorBar = Interval(estimate: string, level: int) | Method(name: string)

  /** `PlotParameter`: every field optional; four of them have a default other than `None`. */
  datatype PlotParameter = PlotParameter(
    colName: Option<string>,
    color: Option<string>,
    hueCol: Option<string>,
    bins: Option<string>,
    colNameX: Option<string>,
    colNameY: Option<string>,
    alpha: Option<string>,
    xCol: Option<string>,
    yCol: Option<string>,
    estimator: Option<string>,
    errorbar: Option<ErrorBar>,
    indexNamesCt: Option<seq<string>>,
    columnNamesCt: Option<seq<string>>,
    annot: Option<bool>,
    fmt: Option<string>,
    cmap: Option<string>,
    annotKws: Option<string>)

  /** `PlotParameter()` with no field given. */
  const DefaultPlotParameter := PlotParameter(
    None, None, None, None, None, None, None, None, None, None,
    Some(Interval("ci", 95)), None, None, Some(true), Some("d"), Some("viridis"), None)

  /** A plot configuration: the plot type and its parameters. */
  datatype PlotConfig = PlotConfig(plotType: string, params: PlotParameter)

  function StrField(v: Option<string>): Option<ParamValue> {
    if v.Some? then Some(Str(v.value)) else None
  }

  function ErrorBarValue(v: Option<ErrorBar>): Option<ParamValue> {
    match v
    case None => None
    case Some(Interval(m, l)) => Some(Pair(m, l))
    case Some(Method(m)) => Some(Str(m))
  }
}
