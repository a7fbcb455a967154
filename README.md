# A data-exploration service and its two dashboard pages, in Dafny

The system is a small FastAPI backend over pandas tables, plus two Streamlit pages that
call it. This project models its library-independent logic and proves properties of it:

- shaping a table by an include or an exclude list of columns;
- the dataset registry, the data manager that loads once, and the process-wide active
  dataset;
- the bookkeeping of the plot handlers and of `StaticPlots`: grid sizing, the `None`
  filter on plot parameters, required-column checks, the `plotted_count` counter, axis
  hiding, error titles, plot titles and estimator names;
- the `Descriptive` table operations and the descriptive handlers built on them;
- the pure rules of the two pages:
  - the column lists they start from;
  - rebuilding a table from its `split` form;
  - stringifying its categorical columns;
  - assembling a plot request and checking it is ready;
  - the cross-tabulation and filter payloads and the query parameters.

A table is a value: column names, one dtype tag per column, and rows of cells (`Frames`).
Every call into pandas, seaborn or matplotlib that can fail becomes an input saying whether
it succeeds. What the call draws or computes is not modelled. Reading a CSV file yields
either a table or a failure, and a folder listing is a sequence of file stems.
Streamlit widget values and API responses are inputs too.

Session state, the data manager, the active dataset, the `Descriptive` object and the
displayed dataframe are updated in place in the source. In the model they are classes
whose methods state their new state. Loops that fill a registry, a list, an array of axes
or a column-by-column conversion are methods with loop invariants. Each of these methods
is proved equal to a recursive specification function, and the properties are then
proved about that function.

Modules, one per source file plus three shared ones:

| module | models |
|---|---|
| `Wrappers`, `Text`, `Frames` | results and errors; the `str` operations used; tables, `select_dtypes`, selection |
| `Schemas` | `PlotParameter`, `PlotConfig`, keyword values |
| `ApiUtils` | `api_utils.py` |
| `ApiDataManager` | `api_data_manager.py` |
| `Descriptive` | `descriptive.py` |
| `ApiDescriptiveHandlers` | `api_descriptive_handlers.py` |
| `StaticPlots` | `static_plots.py` |
| `ApiPlotHandlers` | `api_plot_handlers.py` |
| `Client` | the rules both pages share |
| `NewDashboard` | `new_dashboard.py` |
| `Dashboard` | `dashboard.py` |

Where the code and its docstrings or comments disagree, the model follows the code:

- Include mode keeps the caller's order of the requested names (`api_utils.py:19,27`), not
  the table's order.
- `handle_generate_displot` computes `effective_include` and never uses it.
- The newer page's primary-column test is `selected_plot_type is not "crosstab_heatmap"`.
  It is modelled as string inequality.
- The KDE line colour of a histogram is offered with the default `#FF5733`. The comparison
  that would pick the alternative colour reads the bar colour before it is set, so it
  always sees that default.

## Model

| member | source | states |
|---|---|---|
| ApiUtils.GetShapedDataframe | api_utils.py:4-38 | A non-`None` include list wins. Its existing names are kept, in the caller's order, with every row. A non-empty include list none of whose names exist gives exactly those names as columns with no rows. Otherwise an exclude list drops the existing names it lists. An empty include list, or no list at all, gives the base table. |
| ApiUtils.IncludeKeepsRequestedOrder | api_utils.py:17-27 | The columns kept are the requested names that exist, in request order. Every row is kept, and each cell comes from the same-named base column. |
| ApiUtils.IncludeNoMatchGivesEmptyFrame | api_utils.py:21-25 | An include list that matches nothing gives the requested names as object columns and an empty table. |
| ApiUtils.IncludeIgnoresExclude | api_utils.py:17-29 | Once an include list is given, even `[]`, the exclude list has no effect. |
| ApiUtils.ExcludeDropsExistingNames | api_utils.py:29-33 | Exclude mode keeps exactly the base columns not listed, in table order and without repeats. The row count is unchanged. |
| ApiUtils.ExcludeUnknownNamesIsIdentity | api_utils.py:29-38 | Excluding only names the table lacks returns the table unchanged. |
| ApiUtils.SelectNothingDropped | api_utils.py:30-35 | Selecting the columns left after dropping names the table lacks is the identity. |
| ApiUtils.ShapedIsValid | api_utils.py:17-33 | The shaped table has unique column names whenever the include list does. |
| ApiUtils.ShapingIsIdempotent | api_utils.py:4-38 | Shaping the shaped table again with the same request returns it unchanged. |
| Frames.KeepIn | api_utils.py:19 | `[c for c in s if c in pool]`: its members are exactly the members of `s` found in `pool`, and it is never longer than `s`. |
| Frames.DropIn | api_utils.py:30-33 | Its members are exactly the members of `s` not in `pool`, and it is never longer than `s`. |
| Frames.NamesOfKindSpec | descriptive.py:38 | `select_dtypes` selects a name exactly when its column's dtype is among the kinds. Unique names stay unique. |
| Frames.NamesOfKindOrdered | descriptive.py:38 | With unique names, the selected names come in table order. |
| Frames.NamesOfKindAt | descriptive.py:38 | With repeated names too, a name is selected exactly when some column of that name has a matching dtype: `select_dtypes` judges each column by its own dtype. |
| Frames.ColumnsOfKindSpec | api_data_manager.py:148-157 | On a table with unique names, `select_dtypes` keeps exactly the columns of the given kinds, without repeats and in table order. |
| Frames.InTableOrderPrefix | api_data_manager.py:149-153 | A prefix of a list in table order is in table order. |
| Frames.InTableOrderAppend | api_data_manager.py:149-153 | Appending a name that comes after every listed name keeps the list in table order. |
| Text.Lower | api_data_manager.py:33 | `str.lower` on ASCII: same length, and each character lowered. |
| Text.Replace | api_data_manager.py:33 | `str.replace` of one character by another: same length, and only that character changes. |
| Text.StripEmpty | new_dashboard.py:520 | `strip()` is empty exactly when every character is whitespace, where whitespace is what Python's `str.isspace` accepts (tab to carriage return, the separators `\x1c`–`\x1f`, space, `\x85`, no-break space and the Unicode spaces). Otherwise it starts and ends with a non-space. |
| Text.DecimalRoundTrip | descriptive.py:20 | The digits `str(n)` prints read back as `n`. |
| Text.NatToStringInjective | descriptive.py:20 | Different counts print differently. |
| Text.NatToString | descriptive.py:20 | The decimal digits of a count: all digits, and a leading `0` only for the count 0, which prints as `0`. |
| Text.Join | static_plots.py:132-133 | `sep.join(parts)`: empty for no parts, the part itself for one part. |
| Text.JoinLength | static_plots.py:132-133 | The joined string is as long as the offset of the last part plus that part: nothing follows the last part. |
| Text.JoinHoldsParts | static_plots.py:132-133 | Part `i` sits in the joined string at its offset: the earlier parts and one separator after each. |
| Text.JoinHoldsSeparators | static_plots.py:132-133 | Every part but the last is followed by exactly one separator, and the next part starts right after it. |
| ApiDataManager.DatasetKey | api_data_manager.py:33 | The key has the stem's length. Each character is `_` for `-` or a space, and otherwise the lowered character. |
| ApiDataManager.DatasetKeyIsNormal | api_data_manager.py:44 | A key has no upper-case letter, `-` or space, and normalising it again changes nothing. |
| ApiDataManager.DatasetKeyIgnoresCaseAndSeparators | api_data_manager.py:33 | Stems that differ only in letter case, or in `-`, `_` or space, share a key. |
| ApiDataManager.PrefixedKey | api_data_manager.py:48-49 | A colliding key becomes the folder name with `-` turned into `_`, then `_`, then the plain key. |
| ApiDataManager.Put | api_data_manager.py:34 | `d[k] = v`: the mapping is updated. An existing key keeps its place in the key order and a new key goes last. The registry stays well formed. |
| ApiDataManager.Discovered | api_data_manager.py:20-54 | The registry discovery returns is always well formed: its key list has no repeats and names exactly the keys that have a path. |
| ApiDataManager.DiscoverDatasets | api_data_manager.py:20-54 | The loops give exactly the registry `Discovered` specifies: empty when the folder is missing, then the root files, then each known subfolder in order. |
| ApiDataManager.ScanRoot | api_data_manager.py:31-35 | The root loop registers each stem, in listing order, under its plain key. |
| ApiDataManager.ScanSubfolders | api_data_manager.py:38-52 | The subfolder loop scans `student` and then `bank-additional`, skipping a folder that does not exist. |
| ApiDataManager.ScanFolder | api_data_manager.py:42-52 | Within one subfolder, a key already taken is replaced by its folder-prefixed key. |
| ApiDataManager.MissingDirectoryGivesEmptyRegistry | api_data_manager.py:26-28 | A missing datasets folder gives no keys and no paths. |
| ApiDataManager.AddRootFilesKeyed | api_data_manager.py:31-34 | Every root file is registered under its plain key, never prefixed. Earlier keys stay registered. |
| ApiDataManager.AddSubFilesKeyed | api_data_manager.py:42-51 | Every subfolder file is registered under its plain key or its folder-prefixed key. Earlier keys stay registered. |
| ApiDataManager.AddFoldersKeyed | api_data_manager.py:39-51 | Scanning several folders keeps the same keying and loses no earlier key. |
| ApiDataManager.AddRootFiles | api_data_manager.py:31-35 | Registering the root files keeps the registry a dict: unique keys, insertion order and mapping agree. |
| ApiDataManager.AddSubFiles | api_data_manager.py:43-53 | The same for the files of one subfolder. |
| ApiDataManager.AddFolders | api_data_manager.py:38-53 | The same for the scanned subfolders. |
| ApiDataManager.AddRootFilesOrder | api_data_manager.py:31-35 | Earlier keys keep their place, at most one key is added per file, and the last file listed ends up under its own key. |
| ApiDataManager.AddSubFilesOrder | api_data_manager.py:43-53 | Earlier keys keep their place, and at most one key is added per file. |
| ApiDataManager.AddFoldersOrder | api_data_manager.py:38-53 | Earlier keys keep their place, and subfolders that do not exist change nothing. |
| ApiDataManager.DiscoveredKeys | api_data_manager.py:31-51 | After discovery, every root stem's plain key is registered, and every entry is keyed by its own file as above. |
| ApiDataManager.CollisionIsPrefixed | api_data_manager.py:46-49 | `data.csv` in the root and in `student/` are registered as `data` and then `student_data`. |
| ApiDataManager.CsvDataManager.constructor | api_data_manager.py:160-162 | The source name is the given one when it is non-empty, else the file stem. Nothing is loaded yet. |
| ApiDataManager.CsvDataManager.LoadAndPrepareData | api_data_manager.py:107-118 | A loaded manager does nothing. Otherwise a successful read stores the table and sets the flag. A failed read raises and leaves the manager unloaded. |
| ApiDataManager.CsvDataManager.GetProcessedDf | api_data_manager.py:138-141 | Returns the table exactly when it is loaded. Otherwise raises `RuntimeError` naming the source. |
| ApiDataManager.CsvDataManager.GetColumnNames | api_data_manager.py:143-144 | Returns the loaded table's names, or `get_processed_df`'s error. |
| ApiDataManager.CsvDataManager.GetNumericalDataColumnNames | api_data_manager.py:156-157 | Once loaded it returns exactly the integer and float columns, without repeats and in table order. Before that it returns `get_processed_df`'s error. |
| ApiDataManager.CsvDataManager.GetCategoricalColumnNames | api_data_manager.py:146-154 | Errors exactly when not loaded. Otherwise returns `CategoricalColumns` of the loaded table. |
| ApiDataManager.CategoricalNamesOf | api_data_manager.py:147-154 | The append loop and `dict.fromkeys` give exactly `CategoricalColumns`. |
| ApiDataManager.LowCardinalityMembers | api_data_manager.py:150-153 | An integer column is appended exactly when it has fewer than 20 distinct values. |
| ApiDataManager.FromKeys | api_data_manager.py:154 | `list(dict.fromkeys(s))` has no repeats and the same members as `s`, and is `s` itself when `s` has no repeats. |
| ApiDataManager.CategoricalColumnsSpec | api_data_manager.py:146-154 | The result has no repeats. It starts with the category and object columns, in table order. The rest is exactly the integer columns with fewer than 20 distinct values, also in table order. |
| ApiDataManager.CategoricalColumns | api_data_manager.py:146-154 | The categorical names have no repeats and are all names of the table. |
| ApiDataManager.LowCardinalityOrdered | api_data_manager.py:149-153 | Keeping the integer columns with few distinct values keeps them in table order. |
| ApiDataManager.DefaultKey | api_data_manager.py:67 | The default key is `diamonds` when registered, else the first key, and none when the registry is empty. |
| ApiDataManager.ActiveDataset.constructor | api_data_manager.py:56-60 | The module starts with the discovered registry and nothing active. |
| ApiDataManager.ActiveDataset.LoadDataset | api_data_manager.py:74-93 | Succeeds exactly when the key is registered and the file reads. It then activates a fresh loaded manager for that key's path. On failure the active manager and name are unchanged. |
| ApiDataManager.ActiveDataset.GetActiveDataManager | api_data_manager.py:62-72 | Returns the active manager when there is one. Otherwise it loads the single default key. When there is no default key or loading it fails, it raises `RuntimeError` and nothing becomes active. |
| Descriptive.CountsMessage | descriptive.py:19-20 | The message starts with "Has " and ends with " columns \n". |
| Descriptive.CountsMessageParts | descriptive.py:20 | The message is "Has ", the row count's digits, " rows and ", the column count's digits, then " columns \n". |
| Descriptive.CountsMessageInjective | descriptive.py:19-20 | Equal messages mean equal row and column counts. |
| Descriptive.CountsMessageExample | descriptive.py:20 | For 53940 rows and 10 columns the message is "Has 53940 rows and 10 columns \n". |
| Descriptive.RowsWhere | descriptive.py:32 | Every row kept holds the value in the filtered column. |
| Descriptive.RowsWhereMembers | descriptive.py:32 | A row is kept exactly when it is a row of the table whose cell equals the value. |
| Descriptive.RowsWhereIdempotent | descriptive.py:32 | Filtering the kept rows again keeps them all. |
| Descriptive.RowsWhereSplit | descriptive.py:32 | The kept rows and the dropped rows together are the original rows, as a multiset. |
| Descriptive.FilterByValue | descriptive.py:27-33 | An absent column raises "No columns with that name!". It raises "No values with that name in here!" exactly when no cell equals the value. Otherwise it returns the matching rows in order, with every column and dtype. |
| Descriptive.DataFilterIdempotent | descriptive.py:27-33 | Filtering a filtered table on the same column and value returns it unchanged. |
| Descriptive.DropColumn | descriptive.py:35 | `drop(col, axis=1)` raises `KeyError` exactly for an absent name. Otherwise it keeps the other columns in order with their cells. |
| Descriptive.DropColumnKeepsOthers | descriptive.py:35 | Every other column survives a drop with its dtype. |
| Descriptive.DropColumnsCommute | descriptive.py:34-36 | Dropping two columns in either order leaves the same columns. |
| Descriptive.CategoricalColumnsOf | descriptive.py:37-40 | Keeps exactly the object, bool, category and integer columns, in table order and each with its dtype. Every row is kept, and each cell is the cell of the same-named column of the table. |
| Descriptive.Descriptive.CheckRowsAndColumnsCounts | descriptive.py:19-20 | The message for the object's table: "Has ", its row count in digits, then the column count. |
| Descriptive.Descriptive.DataFilter | descriptive.py:27-33 | `data_filter` on the object's table: the same errors and the matching rows. Every column is kept, and every row comes from the table. |
| Descriptive.Descriptive.CategoricalData | descriptive.py:37-40 | The categorical part of the object's table: unique names in table order, and every row. |
| Descriptive.FrequencyTableCheck | descriptive.py:43-45 | Passes exactly for a bool, category or object column. Otherwise raises "… is not a string or not in features". |
| Descriptive.IntegerColumnsAreCategoricalButNotFrequency | descriptive.py:38-45 | An integer column is in `categorical_data` yet is refused by `frequency_table`. |
| Descriptive.FirstMissing | descriptive.py:52-53 | Finds the first name not in the pool, or none exactly when all are present. |
| Descriptive.CrossTabsCheck | descriptive.py:50-53 | The lookups pass exactly when every index and column name is a categorical column. Otherwise they raise `KeyError` for the first one missing. |
| Descriptive.Descriptive.constructor | descriptive.py:11-12 | The object holds the given table. |
| Descriptive.Descriptive.Create | descriptive.py:11-14 | Anything but a dataframe raises "Input data must be a pandas DF". A dataframe gives a fresh object over it. |
| Descriptive.Descriptive.DataDrop | descriptive.py:34-36 | The object's table becomes the table without the column, which is returned. An absent name raises and leaves the table as it was. |
| ApiDescriptiveHandlers.GetDescriptiveInstance | api_descriptive_handlers.py:12-13 | A fresh object over the table. Tables are values, so the caller's table cannot change. |
| ApiDescriptiveHandlers.HandleGetShape | api_descriptive_handlers.py:15-16 | Exactly the keys `rows` and `columns`, holding the row and column counts. |
| ApiDescriptiveHandlers.ShapeAgreesWithCountsMessage | api_descriptive_handlers.py:15-16 | Two objects with the same counts message report the same shape. |
| ApiDescriptiveHandlers.HandleGetUniqueCounts | api_descriptive_handlers.py:18-23 | The keys are exactly the category, int and object columns, and each value is that column's distinct non-missing count. The result is `{}` exactly when there is no such column. |
| ApiDescriptiveHandlers.UniqueCountsAreCategoricalButNotBoolean | api_descriptive_handlers.py:19 | The columns counted are the categorical columns other than booleans. |
| ApiDescriptiveHandlers.UniqueCountsBounded | api_descriptive_handlers.py:22-23 | No count exceeds the number of rows. |
| ApiDescriptiveHandlers.HandleFrequencyTableAsWritten | api_descriptive_handlers.py:42-51 | As written, every call fails. An absent column raises `ValueError`; any other column raises `TypeError` from the misspelt keyword. |
| ApiDescriptiveHandlers.HandleFrequencyTable | api_descriptive_handlers.py:42-51 | With the keyword corrected, an absent column raises the handler's `ValueError`. The call passes exactly for a bool, category or object column, and otherwise raises `frequency_table`'s `ValueError`. |
| ApiDescriptiveHandlers.FrequencyHandlerRefusesEveryColumn | api_descriptive_handlers.py:50 | Every column the corrected handler accepts, the handler as written refuses. The two agree on absent columns. |
| ApiDescriptiveHandlers.HandleCrossTabs | api_descriptive_handlers.py:53-67 | The loops raise `ValueError` naming the first missing name, index names before column names. When every name exists, the result is `cross_tabs`'s lookups. The handler passes exactly when every name is a categorical column. |
| ApiDescriptiveHandlers.Record | api_descriptive_handlers.py:75 | One record maps exactly the column names, each to its cell in the row. |
| ApiDescriptiveHandlers.Records | api_descriptive_handlers.py:75 | One record per row, in row order. |
| ApiDescriptiveHandlers.HandleGetDataFilter | api_descriptive_handlers.py:69-75 | It has `data_filter`'s two errors. Otherwise it returns the records of exactly the rows `data_filter` keeps, in order. There is at least one, and each has every column and holds the value in the filtered column. |
| StaticPlots.EstimatorName | static_plots.py:11-15 | `None` gives "values", a string gives itself, and a callable gives its `__name__` or else its `str`. |
| StaticPlots.BarTitleOf | static_plots.py:89-93 | The title is "Bar Chart: x", then " vs y" when y is given, then " by hue" when hue is given, as length and slices. |
| StaticPlots.HeatmapTitle | static_plots.py:132-136 | "Heatmap: ", then the index names joined by ", ", then " vs ", then the column names joined by ". ". Normalising appends " (Normalized)". |
| StaticPlots.HeatmapTitleIndexNames | static_plots.py:132-135 | Every index name appears in the title, in order, each but the last followed by ", ". |
| StaticPlots.HeatmapTitleColumnNames | static_plots.py:133-135 | " vs " follows the index names. Then every column name appears, in order, each but the last followed by ". ". |
| StaticPlots.JoinInside | static_plots.py:132-135 | A joined list placed inside a longer string keeps its parts and separators at the shifted offsets. |
| StaticPlots.HeatmapTitleSingle | static_plots.py:134-136 | With one index name and one column name, the title is "Heatmap: i vs c". |
| StaticPlots.CeilDiv | static_plots.py:172-176 | `math.ceil(n / d)`: for positive d, the least r with r·d ≥ n; for negative d, the truncated quotient. |
| StaticPlots.CeilSqrt | static_plots.py:171 | `math.ceil(math.sqrt(n))` as the least c with c·c ≥ n. |
| StaticPlots.SquareGrid | static_plots.py:169-172 | The squarish grid has at least one row, no more rows than columns, room for every plot, and no empty row. |
| StaticPlots.GridFor | static_plots.py:168-176 | Both sizes missing gives the square grid; both given are kept. One missing is computed from the other, and it divides by zero exactly when the other is 0. |
| StaticPlots.GridForFits | static_plots.py:168-178 | When a size is computed and the given one is positive, every plot gets an axis. |
| StaticPlots.LookupIn | static_plots.py:18 | `v in df.columns` is true exactly for a string naming a column. |
| StaticPlots.ColumnsOf | static_plots.py:43 | The columns a method checks: all names, and the categorical ones, where a name counts when some column of that name is categorical. With unique names these are exactly `categorical_data`'s names. |
| StaticPlots.CrossTabsOkSpec | static_plots.py:118-125 | The heatmap's data check is exactly `cross_tabs`'s lookup check. |
| StaticPlots.Histogram | static_plots.py:16-22 | Draws exactly for an existing column when the library draws, titled "Histogram of col". An absent column raises `ValueError`. |
| StaticPlots.Kde | static_plots.py:23-28 | Draws exactly for an existing column when the library draws, titled "KDE plot of col". An absent column raises `ValueError`. |
| StaticPlots.Scatter | static_plots.py:30-36 | Draws exactly when both columns exist and the library draws. An absent x raises first. The title names x and y. |
| StaticPlots.CountPlot | static_plots.py:42-61 | A non-categorical x only gets the title "Error: x not found". A categorical x draws. A failed draw raises from the broken error handler. |
| StaticPlots.BarChartChecks | static_plots.py:71-88 | Passes exactly when x is categorical, y (if given) is a column and hue (if given) is categorical. A missing x gives its error title first. |
| StaticPlots.BarChart | static_plots.py:65-114 | Draws exactly when the checks pass and the library draws, under `BarTitleOf`. A failed draw gives "Error generating bar chart for x". It raises only when x is not given or a check cannot be made. |
| StaticPlots.CrosstabHeatmap | static_plots.py:116-147 | Raises exactly when an argument is missing. A failed lookup or cross-tabulation leaves "Error generating crosstabl". A failed draw leaves "Error plotting heatmap". Otherwise it draws, with the heatmap title. |
| StaticPlots.Dispatch | static_plots.py:191-216 | Passing `ax` twice always raises. |
| StaticPlots.AxisAfter | static_plots.py:216-219 | The axis stays visible with a title, and holds a plot exactly when the method drew. |
| StaticPlots.HideFrom | static_plots.py:226-227 | Axes from `start` on are hidden, and the others are unchanged. |
| StaticPlots.SubplotAxis | static_plots.py:207-222 | An unknown or missing type gets "Unknown type: …". A plotted axis means a known type that drew. |
| StaticPlots.Subplots | static_plots.py:149-227 | No configurations give nothing, and a grid that cannot be sized gives its error. Otherwise there are rows·cols axes: configuration j's axis for j below the count, and hidden blank axes after it. |
| ApiPlotHandlers.PlotParams | api_plot_handlers.py:78 | Every keyword passed is a field of `PlotParameter`. |
| ApiPlotHandlers.PlotParamsNames | api_plot_handlers.py:78 | For the column, colour, bins, alpha and x fields, a keyword is passed exactly when its field is not `None`, with the field's value. |
| ApiPlotHandlers.PlotParamsOthers | api_plot_handlers.py:78 | The same for the remaining fields. The error bar goes as a pair or as a method name. |
| ApiPlotHandlers.DefaultsSurvive | api_plot_handlers.py:78 | Any configuration that leaves errorbar, annot, fmt and cmap at their defaults passes those four defaults, whatever else it sets. |
| ApiPlotHandlers.DefaultParametersDump | api_plot_handlers.py:78 | A configuration that sets no field passes exactly those four keywords. |
| ApiPlotHandlers.RequiredFrom | api_plot_handlers.py:85-90 | Lists exactly the non-empty names set under the five required keys. |
| ApiPlotHandlers.MissingColumnsSpec | api_plot_handlers.py:93-95 | `missing_cols` is empty exactly when every required column exists. |
| ApiPlotHandlers.DashboardAttemptSpec | api_plot_handlers.py:81-106 | A configuration counts exactly when its type is known, its required columns exist and its method does not raise, and a drawn axis always counts. An unknown type gets "Unknown plot type: …". A known type that does not count gets "Plotting Error: …". |
| ApiPlotHandlers.DashboardAttempt | api_plot_handlers.py:81-106 | One iteration leaves its axis visible. A drawn axis counts, and only a known type counts. An unknown type gets "Unknown plot type: …" and does not count. |
| ApiPlotHandlers.FinalAxis | api_plot_handlers.py:81-114 | Axis `j` is visible exactly when `j` is below `plotted_count`. A configured axis keeps its attempt's title and drawing. A spare axis has neither. |
| ApiPlotHandlers.UnrequestedShapeIsBase | api_plot_handlers.py:36-38 | Without a non-empty include or exclude list, the dashboard plots from the whole table. |
| ApiPlotHandlers.PlottedCount | api_plot_handlers.py:98 | `plotted_count` never exceeds the number of configurations. |
| ApiPlotHandlers.DrawConfig | api_plot_handlers.py:74-106 | One iteration: axis i gets the attempt's axis, and the count grows by one when the attempt counts. |
| ApiPlotHandlers.PlotConfigs | api_plot_handlers.py:68-106 | The loop's count is `PlottedCount`. Each configuration's axis is its attempt's axis, and the axes past them stay blank. |
| ApiPlotHandlers.GenerateDashboardPlot | api_plot_handlers.py:26-133 | For any include list, repeated names included: there is an image exactly when the shaped table is not both empty and requested, there are configurations, something counted, and saving works. It has rows·cols axes, and those from `plotted_count` on are hidden. |
| ApiPlotHandlers.UnknownTypesNeverCount | api_plot_handlers.py:104-106 | Configurations of unknown type alone never count. |
| ApiPlotHandlers.DisplotIsNotADashboardType | api_plot_handlers.py:57-66 | "displot" is not among the dashboard's plot types. |
| ApiPlotHandlers.HistogramCounts | api_plot_handlers.py:81-98 | A histogram of an existing column, with its other required columns present, draws and counts. |
| ApiPlotHandlers.OnlyColumnRequired | api_plot_handlers.py:86-90 | A configuration setting only `col_name` requires only that column. |
| ApiPlotHandlers.SquareGridOfTwo | api_plot_handlers.py:51-52 | Two plots use a 1 x 2 grid. |
| ApiPlotHandlers.DrawnAxisHiddenByCount | api_plot_handlers.py:113-114 | Hiding is by count: after an unknown type, a drawn second axis is hidden. |
| ApiPlotHandlers.DashboardPlotAsWritten | api_plot_handlers.py:20-43 | As written, past the empty-and-requested guard every request raises `TypeError` from `StaticPlots(df)`. |
| ApiPlotHandlers.DashboardAsWrittenRaises | api_plot_handlers.py:22 | A one-histogram dashboard the corrected handler counts raises as written. |
| ApiPlotHandlers.EffectiveInclude | api_plot_handlers.py:153-157 | The include list, then the column and the hue when absent. It holds both, adds nothing else and keeps uniqueness. |
| ApiPlotHandlers.HandleGenerateDisplot | api_plot_handlers.py:166-177 | A missing column raises first, then a missing hue. Then an empty table gives no image, and any other table raises at `StaticPlots(df)`. It never returns an image. |
| Client.ColumnQuery | new_dashboard.py:343-344 | Only the keys `include_columns` and `exclude_columns` are ever sent. |
| Client.ColumnQueryReceived | new_dashboard.py:343-344 | A selection reaches the API exactly when it is not empty. With both selections empty, nothing is shaped. |
| Client.PreferredIndex | new_dashboard.py:435 | The first position of the preferred option, or 0 when it is not offered. |
| Client.ProcessedIndex | new_dashboard.py:102 | List entries become tuples, and scalars stay as they are. |
| Client.ProcessedIndexRoundTrip | new_dashboard.py:102 | Decoding gives back the labels the API encoded, tuples included. |
| Client.SingleName | new_dashboard.py:107-108 | A single-level index is named only by a one-element list or a string. |
| Client.ReconstructIndex | new_dashboard.py:100-110 | With no entries, the index is empty when there is no data and the default otherwise. With entries, it is multi-level exactly when the first entry is a list, and the labels are the processed entries. |
| Client.Built | new_dashboard.py:111 | The dataframe has the response's columns and rows. |
| Client.AsStr | new_dashboard.py:116 | `astype(str)` keeps the names and the row count. |
| Client.Stringified | new_dashboard.py:113-116 | Converting columns in turn keeps the names and the row count. |
| Client.StringifiedCells | new_dashboard.py:112-117 | A converted column holds the text of each cell, with dtype object, and every other cell is kept. A column is converted exactly when it is named and, on the newer page, the table has rows. |
| Client.PagesAgreeOnCells | dashboard.py:137-146 | The two pages produce the same cells. They differ only in dtypes, and only for a table without rows. |
| Client.DisplayFrame.constructor | new_dashboard.py:111 | The displayed frame starts as the built table. |
| Client.DisplayFrame.StringifyColumns | new_dashboard.py:113-117 | The in-place loop leaves exactly `Stringified` of the table. |
| Client.DisplaySplitResponse | new_dashboard.py:86-125 | Warns exactly when the response is empty or has a `null` part. A frame that cannot be built gives an error. Otherwise it shows the reconstructed index and the stringified table. |
| NewDashboard.Toggled | new_dashboard.py:382-383 | A toggle negates one flag and keeps every other. |
| NewDashboard.ToggleTwice | new_dashboard.py:382-383 | Toggling twice restores every flag. |
| NewDashboard.InitialColumns | new_dashboard.py:44-60 | Each list comes from the response with its own fallback. A failed or empty response, or an empty list of all columns, gives all three fallbacks. The list of all columns is never empty. |
| NewDashboard.SessionState.constructor | new_dashboard.py:42 | A new session has nothing initialized and no flag set. |
| NewDashboard.SessionState.Initialize | new_dashboard.py:41-72 | Runs once per session. It sets the lists to `InitialColumns` and every section flag to false. A second run changes nothing. |
| NewDashboard.SessionState.Toggle | new_dashboard.py:381-384 | Only the named flag changes, to its negation. |
| NewDashboard.OptStr | new_dashboard.py:146-154 | A select box value as a parameter: set exactly when an option other than `None` is chosen. |
| NewDashboard.EdgeColorValue | new_dashboard.py:172-176 | The edge colour is `None` exactly for an empty text or any spelling of "none" around whitespace. Any other text is kept as typed. |
| NewDashboard.CommonControls | new_dashboard.py:143-154 | `col_name` is set for every type except the heatmap. `hue_col` is set exactly for kde, scatter, bar, count and displot. |
| NewDashboard.HistogramControls | new_dashboard.py:157-179 | The histogram's parameters are exactly its column, bins, kde flag, line colour when kde is on, colour, edge colour and stat. |
| NewDashboard.KdeControls | new_dashboard.py:181-184 | The kde's parameters are exactly its column, hue, fill, alpha and line width. |
| NewDashboard.RenamePrimary | new_dashboard.py:187-189 | `col_name` is removed, and its value moves to the new key only when truthy. |
| NewDashboard.ScatterControls | new_dashboard.py:186-208 | `col_name` becomes `col_name_x`, `col_name_y` is set when chosen, then alpha and marker size follow. |
| NewDashboard.BarChartControls | new_dashboard.py:210-251 | `col_name` becomes `x_col`; then `y_col`, the estimator and errorbar when chosen, and the stripped palette. |
| NewDashboard.BarChartOptions | new_dashboard.py:226-251 | The estimator, errorbar and palette slots, with the earlier keys kept. |
| NewDashboard.CountPlotControls | new_dashboard.py:253-268 | `col_name` becomes `x_col`, plus dodge and the stripped palette. |
| NewDashboard.CrosstabHeatmapControls | new_dashboard.py:270-311 | The index and column selections when non-empty, annot, and the stripped fmt and colour map when not blank. |
| NewDashboard.DisplotControls | new_dashboard.py:314-322 | Column, hue and kind. |
| NewDashboard.PlotParamsUi | new_dashboard.py:141-322 | The parameters are those `Describes` gives for the chosen type. |
| NewDashboard.DescribedKeys | new_dashboard.py:141-322 | Every key belongs to the type. Boolean keys are never `None`. Only the column, hue and edge colour can be `None`. |
| NewDashboard.DescribedReadiness | new_dashboard.py:327-334 | On these parameters, readiness depends on the widgets alone. |
| NewDashboard.FinalPlotParams | new_dashboard.py:337 | Keeps every non-`None` value, and keeps a `None` only under a boolean key. |
| NewDashboard.ReadyToPlotNeeds | new_dashboard.py:324-332 | A plot is ready exactly when every parameter its type needs is set and truthy. Parameters it does not need play no part. |
| NewDashboard.FinalDropsExactlyNone | new_dashboard.py:337 | On the page's parameters, the final parameters are exactly the non-`None` ones. |
| NewDashboard.DynamicPlotRequest | new_dashboard.py:324-344 | A request exactly when ready. It carries the type's name, the final parameters and the non-empty selections. |
| NewDashboard.RequestCarriesPrimaryColumn | new_dashboard.py:327-340 | A request is sent exactly when the widgets are ready. It then names the chosen column under the key its type reads. |
| NewDashboard.DisplotRequestNeverPlots | new_dashboard.py:340 | The page's displot request never counts on the dashboard endpoint. |
| NewDashboard.FrequencyColumnDefault | new_dashboard.py:431-436 | No choice without categorical columns. Otherwise "cut" when offered, else the first column. |
| NewDashboard.CrosstabRequest | new_dashboard.py:473-482 | A payload exactly when both selections are made, carrying them and the two flags. |
| NewDashboard.CrosstabIndexNamed | new_dashboard.py:487 | A single index column names a single-level index. |
| NewDashboard.FilterPayload | new_dashboard.py:519-522 | One column and the value as typed, exactly when a column is chosen and the value is not blank. Otherwise empty. |
| NewDashboard.DisplayDfFromApiSplitResponse | new_dashboard.py:86-125 | The decoder with the emptiness guard: columns of a table without rows stay unconverted. |
| Dashboard.RebuiltColumns | dashboard.py:43 | The rebuilt list holds exactly the numerical and categorical names, without repeats when neither list has any. It is empty exactly when both are. |
| Dashboard.Rebuilt | dashboard.py:43 | The rebuilt list starts with the numerical names and adds at most the categorical ones. |
| Dashboard.InitColumnLists | dashboard.py:31-51 | A failed or empty response gives the defaults. With the list of all columns given, all three lists come from the response. Otherwise that list is rebuilt, and each list still empty falls back on its own. The list of all columns is never empty. |
| Dashboard.RebuiltListsNeverEmpty | dashboard.py:41-46 | After a rebuild no list is empty, and every name listed is numerical or categorical. |
| Dashboard.DisplayDfFromApiSplitResponse | dashboard.py:65-166 | The decoder without the emptiness guard: every categorical column present is converted. |
| Dashboard.DisplotColumnDefault | dashboard.py:206-209 | No choice without numerical columns. Otherwise "price" when offered, else the first column. |
| Dashboard.DisplotApiParams | dashboard.py:215-218 | `kind` is always sent and `col_name` whenever a column is selected. `hue_col` is sent exactly when chosen. The selections arrive as `ColumnQuery` sends them. |

## Left out

- HTTP, FastAPI routing and Streamlit rendering, reruns and `requests`: widget values and responses are inputs.
- CSV reading, delimiter sniffing and `glob` (`_load_data_from_source`): a read is a table or a failure, and a listing is a sequence of stems.
- The order `glob` lists files in is an input, not modelled.
- `_post_process_data`: its float columns (`price_per_carat`, `high_price`, `average_grade`) are float arithmetic. The model stores the table as read.
- `numerical_describe`, `categorical_describe`, `data_info` and their handlers are library output. `handle_categorical_summary` also passes `include=`, which `categorical_describe` does not take.
- `check_unique_counts` is a printed dict; the unique counts are modelled through `handle_get_unique_counts`.
- The library calls `sns.*`, `pd.crosstab` and `pd.MultiIndex`, and PNG saving: each call succeeds or fails as an input, and a figure is its axes.
- `dist_plot` is not modelled: the handler never reaches it, because `StaticPlots(df)` raises first.
- StaticPlots.CeilSqrt: integer ceiling of the square root, not `math.sqrt` in floating point. The two agree wherever the float result is exact.
- ApiPlotHandlers.PlotConfigs: the out-of-axes `break` is left out of the loop, because StaticPlots.SquareGrid proves it never fires.
- Python's `is not` on strings is modelled as `!=`.
- Pydantic coercion of request values is not modelled. `alpha` keeps its printed form, and a `Key` `Other(name)` never repeats a named key.
- Strings are ASCII for `lower`. `strip` removes what `str.isspace` accepts.
- Frames.Show: a missing cell prints as `nan`, as a float column's `NaN` does. A `None` in an object column prints as `None` in pandas, and the model does not tell the two apart.
- Dtype inference of a rebuilt dataframe is simplified to int, float, bool or object.
- The fixed dashboard configurations of `dashboard.py` (lines 180-187) are literal data.
- The descriptive, frequency-table and filter sections of `dashboard.py` beyond the column lists, decoder and displot are left out. They repeat the newer page's rules.
- ApiDescriptiveHandlers.HandleCrossTabs: names only the lookups `cross_tabs` makes; the normalised or margined counts are library output.
- ApiDescriptiveHandlers.HandleFrequencyTable: states the validation only; the table of counts is library output.
- The `__main__` blocks and the `Diamonds` subclass are demo code.

## Findings

| source | as written | input that shows it | evidently intended | confidence | as-written member | corrected member |
|---|---|---|---|---|---|---|
| api_plot_handlers.py:22 | `StaticPlots(df.copy())`, but `StaticPlots.__init__` (static_plots.py:8-10) takes no table, so it raises `TypeError` | a table with column `carat` and one histogram configuration on it | the instance plots the shaped table, so the dashboard returns a figure | not executed | ApiPlotHandlers.DashboardAsWrittenRaises | ApiPlotHandlers.GenerateDashboardPlot |
| api_descriptive_handlers.py:50 | `frequency_table(column=...)`, while the parameter is `column_name` (descriptive.py:42), so the call raises `TypeError` | any column present in the table, for example an object column | the column is passed as `column_name`, and valid columns get a frequency table | not executed | ApiDescriptiveHandlers.FrequencyHandlerRefusesEveryColumn | ApiDescriptiveHandlers.HandleFrequencyTable |
