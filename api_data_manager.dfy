/** The dataset registry, the loaded-once data manager and the process-wide active
    dataset. Folder listings and CSV reading are inputs: a listing is a sequence of file
    stems, and reading a file either yields a table or fails. */
module ApiDataManager {
  import opened Wrappers
  import opened Text
  import opened Frames

  // ---------------------------------------------------------------- dataset keys

  /** The registry key of a CSV file: its stem lowercased, with `-` and space turned into `_`. */
  function DatasetKey(stem: string): (k: string)
    ensures |k| == |stem|
    ensures forall i | 0 <= i < |k| :: k[i] == (if stem[i] == '-' || stem[i] == ' ' then '_' else LowerChar(stem[i]))
  {
    Replace(Replace(Lower(stem), '-', '_'), ' ', '_')
  }

  /** A key has no upper-case letter, no `-` and no space. */
  predicate NormalKey(k: string) {
    forall i | 0 <= i < |k| :: !IsUpper(k[i]) && k[i] != '-' && k[i] != ' '
  }

  /** Every key is normal, and normalising a key again changes nothing. */
  lemma DatasetKeyIsNormal(stem: string)
    ensures NormalKey(DatasetKey(stem))
    ensures DatasetKey(DatasetKey(stem)) == DatasetKey(stem)
  {
  }

  /** Two stems that differ only in letter case, or in `-` written for `_` or space, share a key. */
  lemma DatasetKeyIgnoresCaseAndSeparators(a: string, b: string)
    requires |a| == |b|
    requires forall i | 0 <= i < |a| ::
      LowerChar(a[i]) == LowerChar(b[i]) ||
      (a[i] in "-_ " && b[i] in "-_ ")
    ensures DatasetKey(a) == DatasetKey(b)
  {
  }

  /** The folders scanned after the root, in this order. */
  const Subfolders: seq<string> := ["student", "bank-additional"]

  /** The prefix placed before a subfolder file's key when the plain key is already taken. */
  function PrefixedKey(folder: string, key: string): (k: string)
    ensures k == Replace(folder, '-', '_') + "_" + key
    ensures |k| == |folder| + 1 + |key| && k[|folder|] == '_' && k[|folder| + 1..] == key
  {
    Replace(folder, '-', '_') + "_" + key
  }

  /** Where a discovered file lives: the root folder (`None`) or a named subfolder. */
  datatype FilePath = FilePath(folder: Option<string>, stem: string)

  // ---------------------------------------------------------------- the registry

  /** A Python dict from keys to paths: the keys in insertion order, and the mapping. */
  datatype Registry = Registry(keys: seq<string>, paths: map<string, FilePath>)

  const EmptyRegistry := Registry([], map[])

  predicate RegistryValid(r: Registry) {
    Distinct(r.keys) && (forall k | k in r.keys :: k in r.paths) && (forall k | k in r.paths :: k in r.keys)
  }

  /** `d[k] = v`: an existing key keeps its place and gets the new value; a new key goes last. */
  function Put(r: Registry, k: string, v: FilePath): (r': Registry)
    requires RegistryValid(r)
    ensures RegistryValid(r')
    ensures r'.paths == r.paths[k := v]
    ensures k in r.paths ==> r'.keys == r.keys
    ensures k !in r.paths ==> r'.keys == r.keys + [k]
  {
    if k in r.paths then Registry(r.keys, r.paths[k := v]) else Registry(r.keys + [k], r.paths[k := v])
  }

  /** Registering one file of the root folder. */
  function RegisterRoot(r: Registry, stem: string): Registry
    requires RegistryValid(r)
  {
    Put(r, DatasetKey(stem), FilePath(None, stem))
  }

  /** Registering one file of a subfolder: a key already taken gets the folder prefix. */
  function RegisterSub(r: Registry, folder: string, stem: string): Registry
    requires RegistryValid(r)
  {
    var key := DatasetKey(stem);
    Put(r, if key in r.paths then PrefixedKey(folder, key) else key, FilePath(Some(folder), stem))
  }

  /** Registering the files of the root folder one by one, in listing order. */
  function AddRootFiles(r: Registry, stems: seq<string>): (r': Registry)
    requires RegistryValid(r)
    ensures RegistryValid(r')
  {
    if stems == [] then r else RegisterRoot(AddRootFiles(r, stems[..|stems| - 1]), stems[|stems| - 1])
  }

  /** Registering the files of one subfolder one by one, in listing order. */
  function AddSubFiles(r: Registry, folder: string, stems: seq<string>): (r': Registry)
    requires RegistryValid(r)
    ensures RegistryValid(r')
  {
    if stems == [] then r else RegisterSub(AddSubFiles(r, folder, stems[..|stems| - 1]), folder, stems[|stems| - 1])
  }

  /** Scanning the given subfolders in order; a folder missing from `listing` does not exist. */
  function AddFolders(r: Registry, folders: seq<string>, listing: map<string, seq<string>>): (r': Registry)
    requires RegistryValid(r)
    ensures RegistryValid(r')
  {
    if folders == [] then r
    else
      var before := AddFolders(r, folders[..|folders| - 1], listing);
      var f := folders[|folders| - 1];
      if f in listing then AddSubFiles(before, f, listing[f]) else before
  }

  /** What `discover_datasets` returns, given whether the datasets folder exists, the stems of
      its CSV files and the CSV stems of each subfolder that exists. */
  function Discovered(dirExists: bool, rootStems: seq<string>, listing: map<string, seq<string>>): (r: Registry)
    ensures RegistryValid(r)
  {
    if !dirExists then EmptyRegistry else AddFolders(AddRootFiles(EmptyRegistry, rootStems), Subfolders, listing)
  }

  /** `discover_datasets`: scan the root folder, then each known subfolder, filling the dict. */
  method DiscoverDatasets(dirExists: bool, rootStems: seq<string>, listing: map<string, seq<string>>)
    returns (available: Registry)
    ensures available == Discovered(dirExists, rootStems, listing)
  {
    available := EmptyRegistry;
    if !dirExists {
      return;
    }
    available := ScanRoot(available, rootStems);
    available := ScanSubfolders(available, Subfolders, listing);
  }

  /** The root folder of the scan: each file under its own key, a later file replacing an
      earlier one with the same key. */
  method ScanRoot(start: Registry, stems: seq<string>) returns (available: Registry)
    requires RegistryValid(start)
    ensures RegistryValid(available)
    ensures available == AddRootFiles(start, stems)
  {
    available := start;
    var i := 0;
    while i < |stems|
      invariant 0 <= i <= |stems|
      invariant RegistryValid(available)
      invariant available == AddRootFiles(start, stems[..i])
    {
      assert stems[..i + 1][..i] == stems[..i];
      var key := DatasetKey(stems[i]);
      available := Put(available, key, FilePath(None, stems[i]));
      i := i + 1;
    }
    assert stems[..i] == stems;
  }

  /** The subfolders of the scan, in order; a folder missing from the listing is skipped. */
  method ScanSubfolders(start: Registry, folders: seq<string>, listing: map<string, seq<string>>)
    returns (available: Registry)
    requires RegistryValid(start)
    ensures RegistryValid(available)
    ensures available == AddFolders(start, folders, listing)
  {
    available := start;
    var s := 0;
    while s < |folders|
      invariant 0 <= s <= |folders|
      invariant RegistryValid(available)
      invariant available == AddFolders(start, folders[..s], listing)
    {
      assert folders[..s + 1][..s] == folders[..s];
      var folder := folders[s];
      if folder in listing {
        available := ScanFolder(available, folder, listing[folder]);
      }
      s := s + 1;
    }
    assert folders[..s] == folders;
  }

  /** One subfolder of the scan: each file under its own key, or under the key prefixed with
      the folder's name when the key is already taken. */
  method ScanFolder(start: Registry, folder: string, stems: seq<string>) returns (available: Registry)
    requires RegistryValid(start)
    ensures RegistryValid(available)
    ensures available == AddSubFiles(start, folder, stems)
  {
    available := start;
    var j := 0;
    while j < |stems|
      invariant 0 <= j <= |stems|
      invariant RegistryValid(available)
      invariant available == AddSubFiles(start, folder, stems[..j])
    {
      assert stems[..j + 1][..j] == stems[..j];
      var key := DatasetKey(stems[j]);
      if key in available.paths {
        key := PrefixedKey(folder, key);
      }
      available := Put(available, key, FilePath(Some(folder), stems[j]));
      j := j + 1;
    }
    assert stems[..j] == stems;
  }

  /** A missing datasets folder gives an empty registry. */
  lemma MissingDirectoryGivesEmptyRegistry(rootStems: seq<string>, listing: map<string, seq<string>>)
    ensures Discovered(false, rootStems, listing).keys == []
    ensures Discovered(false, rootStems, listing).paths == map[]
  {
  }

  /** How a registry entry's key relates to its file: a root file is registered under its
      plain key; a subfolder file under its plain key or under the folder-prefixed key. */
  predicate KeyedByFile(r: Registry) {
    forall k | k in r.paths ::
      match r.paths[k].folder
      case None => k == DatasetKey(r.paths[k].stem)
      case Some(f) => k == DatasetKey(r.paths[k].stem) || k == PrefixedKey(f, DatasetKey(r.paths[k].stem))
  }

  /** The root scan keeps every earlier key in its place and adds at most one key per file;
      the last file listed is registered, under its own key, whatever came before it. */
  lemma {:induction false} AddRootFilesOrder(r: Registry, stems: seq<string>)
    requires RegistryValid(r)
    ensures var r' := AddRootFiles(r, stems);
            |r.keys| <= |r'.keys| <= |r.keys| + |stems| && r'.keys[..|r.keys|] == r.keys &&
            (stems != [] ==> var last := stems[|stems| - 1];
                             DatasetKey(last) in r'.paths && r'.paths[DatasetKey(last)] == FilePath(None, last))
  {
    if stems != [] {
      var before := AddRootFiles(r, stems[..|stems| - 1]);
      AddRootFilesOrder(r, stems[..|stems| - 1]);
      assert before.keys[..|r.keys|] == r.keys;
    }
  }

  /** A subfolder scan keeps every earlier key in its place and adds at most one key per file. */
  lemma {:induction false} AddSubFilesOrder(r: Registry, folder: string, stems: seq<string>)
    requires RegistryValid(r)
    ensures var r' := AddSubFiles(r, folder, stems);
            |r.keys| <= |r'.keys| <= |r.keys| + |stems| && r'.keys[..|r.keys|] == r.keys
  {
    if stems != [] {
      var before := AddSubFiles(r, folder, stems[..|stems| - 1]);
      AddSubFilesOrder(r, folder, stems[..|stems| - 1]);
      assert before.keys[..|r.keys|] == r.keys;
    }
  }

  /** Scanning subfolders keeps every earlier key in its place, and folders that do not
      exist change nothing. */
  lemma {:induction false} AddFoldersOrder(r: Registry, folders: seq<string>, listing: map<string, seq<string>>)
    requires RegistryValid(r)
    ensures var r' := AddFolders(r, folders, listing);
            |r.keys| <= |r'.keys| && r'.keys[..|r.keys|] == r.keys &&
            ((forall f | f in folders :: f !in listing) ==> r' == r)
  {
    if folders != [] {
      var init := folders[..|folders| - 1];
      var before := AddFolders(r, init, listing);
      AddFoldersOrder(r, init, listing);
      assert forall f | f in init :: f in folders;
      var f := folders[|folders| - 1];
      if f in listing {
        AddSubFilesOrder(before, f, listing[f]);
      }
    }
  }

  lemma {:induction false} AddRootFilesKeyed(r: Registry, stems: seq<string>)
    requires RegistryValid(r) && KeyedByFile(r)
    ensures KeyedByFile(AddRootFiles(r, stems))
    ensures forall k | k in r.paths :: k in AddRootFiles(r, stems).paths
    ensures forall i | 0 <= i < |stems| :: DatasetKey(stems[i]) in AddRootFiles(r, stems).paths
  {
    if stems != [] {
      AddRootFilesKeyed(r, stems[..|stems| - 1]);
      assert forall i | 0 <= i < |stems| - 1 :: stems[..|stems| - 1][i] == stems[i];
    }
  }

  lemma {:induction false} AddSubFilesKeyed(r: Registry, folder: string, stems: seq<string>)
    requires RegistryValid(r) && KeyedByFile(r)
    ensures KeyedByFile(AddSubFiles(r, folder, stems))
    ensures forall k | k in r.paths :: k in AddSubFiles(r, folder, stems).paths
  {
    if stems != [] {
      AddSubFilesKeyed(r, folder, stems[..|stems| - 1]);
    }
  }

  lemma {:induction false} AddFoldersKeyed(r: Registry, folders: seq<string>, listing: map<string, seq<string>>)
    requires RegistryValid(r) && KeyedByFile(r)
    ensures KeyedByFile(AddFolders(r, folders, listing))
    ensures forall k | k in r.paths :: k in AddFolders(r, folders, listing).paths
  {
    if folders != [] {
      AddFoldersKeyed(r, folders[..|folders| - 1], listing);
      var f := folders[|folders| - 1];
      if f in listing {
        AddSubFilesKeyed(AddFolders(r, folders[..|folders| - 1], listing), f, listing[f]);
      }
    }
  }

  /** Discovery keys every root file by its plain key, never prefixed, and that key is
      registered; every subfolder entry is under its plain key or its folder-prefixed key. */
  lemma DiscoveredKeys(rootStems: seq<string>, listing: map<string, seq<string>>)
    ensures var r := Discovered(true, rootStems, listing);
            KeyedByFile(r) &&
            forall i | 0 <= i < |rootStems| :: DatasetKey(rootStems[i]) in r.paths
  {
    AddRootFilesKeyed(EmptyRegistry, rootStems);
    AddFoldersKeyed(AddRootFiles(EmptyRegistry, rootStems), Subfolders, listing);
  }

  lemma RootDataRegistered()
    ensures AddRootFiles(EmptyRegistry, ["data"]) == Registry(["data"], map["data" := FilePath(None, "data")])
  {
    assert ["data"][..0] == [];
    assert DatasetKey("data") == "data";
  }

  lemma StudentDataPrefixed(root: Registry)
    requires root == Registry(["data"], map["data" := FilePath(None, "data")])
    ensures AddSubFiles(root, "student", ["data"]) ==
            Registry(["data", "student_data"], map["data" := FilePath(None, "data"), "student_data" := FilePath(Some("student"), "data")])
  {
    assert ["data"][..0] == [];
    assert DatasetKey("data") == "data";
    assert PrefixedKey("student", "data") == "student_data";
  }

  /** A file `data.csv` in the root and another in `student/` end up under `data` and
      `student_data`, in that order. */
  lemma CollisionIsPrefixed()
    ensures var r := Discovered(true, ["data"], map["student" := ["data"]]);
            r.keys == ["data", "student_data"] &&
            r.paths["data"] == FilePath(None, "data") &&
            r.paths["student_data"] == FilePath(Some("student"), "data")
  {
    var listing := map["student" := ["data"]];
    var root := AddRootFiles(EmptyRegistry, ["data"]);
    RootDataRegistered();
    StudentDataPrefixed(root);
    assert Subfolders[..1][..0] == [];
    assert AddFolders(root, Subfolders[..1], listing) == AddSubFiles(root, "student", ["data"]);
    assert Subfolders[..2] == Subfolders && Subfolders[..2][..1] == Subfolders[..1];
    assert "bank-additional" !in listing;
  }

  // ---------------------------------------------------------------- one data manager

  /** `CSVDataManager`, with the loaded-once state of `BaseDataManager`. */
  class CsvDataManager {
    const sourceName: string
    const filePath: FilePath
    var processed: Option<Table>
    var isLoaded: bool

    /** A manager holds a table exactly when it is loaded, and that table has unique names. */
    predicate Valid() reads this {
      (isLoaded <==> processed.Some?) && (processed.Some? ==> Frames.Valid(processed.value))
    }

    /** `CSVDataManager(file_path, source_name)`: the name is the given one when it is
        non-empty, otherwise the file stem. Nothing is loaded yet. */
    constructor (filePath: FilePath, sourceName: Option<string>)
      ensures this.filePath == filePath
      ensures this.sourceName == if sourceName.Some? && sourceName.value != "" then sourceName.value else filePath.stem
      ensures !isLoaded && processed == None && Valid()
    {
      this.filePath := filePath;
      this.sourceName := if sourceName.Some? && sourceName.value != "" then sourceName.value else filePath.stem;
      processed := None;
      isLoaded := false;
    }

    /** `load_and_prepare_data`. `read` is what reading the file gives: a table, or `None`
        when reading raises. A loaded manager does nothing; otherwise the table is kept and
        the flag set only when reading succeeds, and a failure is re-raised. */
    method LoadAndPrepareData(read: Option<Table>) returns (r: Outcome)
      requires Valid()
      requires read.Some? ==> Frames.Valid(read.value)
      modifies this
      ensures Valid()
      ensures old(isLoaded) ==> r == Pass && processed == old(processed) && isLoaded
      ensures !old(isLoaded) && read.Some? ==> r == Pass && isLoaded && processed == read
      ensures !old(isLoaded) && read.None? ==> r == Fail(LibraryError) && !isLoaded && processed == old(processed)
    {
      if isLoaded {
        return Pass;
      }
      match read
      case None =>
        r := Fail(LibraryError);
      case Some(df) =>
        processed := Some(df);
        isLoaded := true;
        r := Pass;
    }

    /** `get_processed_df`: the table once loaded, else a `RuntimeError` naming the source. */
    function GetProcessedDf(): (r: Result<Table>)
      reads this
      ensures r.Ok? <==> isLoaded && processed.Some?
      ensures r.Ok? ==> r.value == processed.value
      ensures r.Err? ==> r.error == RuntimeError("Data for '" + sourceName + "' not loaded. Call load_dataset() first.")
    {
      if !isLoaded || processed.None? then Err(RuntimeError("Data for '" + sourceName + "' not loaded. Call load_dataset() first."))
      else Ok(processed.value)
    }

    /** `get_column_names`: the loaded table's column names in order. */
    function GetColumnNames(): (r: Result<seq<string>>)
      reads this
      ensures r.Ok? <==> GetProcessedDf().Ok?
      ensures r.Ok? ==> r.value == GetProcessedDf().value.names
      ensures r.Err? ==> r.error == GetProcessedDf().error
    {
      match GetProcessedDf()
      case Ok(df) => Ok(df.names)
      case Err(e) => Err(e)
    }

    /** `get_numerical_data_column_names`: the integer and float columns in table order. */
    function GetNumericalDataColumnNames(): (r: Result<seq<string>>)
      requires Valid()
      reads this
      ensures r.Ok? <==> isLoaded
      ensures r.Ok? ==> forall x :: x in r.value <==>
                (x in processed.value.names && DTypeOf(processed.value, x) in NumberKinds)
      ensures r.Ok? ==> Distinct(r.value) && InTableOrder(processed.value.names, r.value)
      ensures r.Err? ==> r.error == GetProcessedDf().error
    {
      match GetProcessedDf()
      case Ok(df) =>
        ColumnsOfKindSpec(df, NumberKinds);
        Ok(ColumnsOfKind(df, NumberKinds))
      case Err(e) => Err(e)
    }

    /** `get_categorical_column_names`: the category and object columns in table order,
        then the integer columns with fewer than 20 distinct values, without repeats. */
    method GetCategoricalColumnNames() returns (r: Result<seq<string>>)
      requires Valid()
      ensures r.Err? <==> !isLoaded
      ensures r.Err? ==> r == Err(GetProcessedDf().error)
      ensures r.Ok? ==> r.value == CategoricalColumns(processed.value)
    {
      var got := GetProcessedDf();
      if got.Err? {
        return Err(got.error);
      }
      var names := CategoricalNamesOf(got.value);
      return Ok(names);
    }
  }

  /** The loop of `get_categorical_column_names` over a loaded table: start from the
      category and object columns, append each integer column not yet listed whose distinct
      values are fewer than 20, then remove repeats. */
  method CategoricalNamesOf(df: Table) returns (names: seq<string>)
    requires Frames.Valid(df)
    ensures names == CategoricalColumns(df)
  {
    var objs := ColumnsOfKind(df, CategoryKinds);
    var ints := ColumnsOfKind(df, IntegerKinds);
    var list := objs;
    var i := 0;
    while i < |ints|
      invariant 0 <= i <= |ints|
      invariant list == objs + LowCardinality(df, ints[..i])
    {
      var name := ints[i];
      LowCardinalityHolds(df, ints, i);
      LowCardinalityStep(df, ints, i);
      if name !in list {
        if NUnique(df, name) < CategoricalThreshold {
          list := list + [name];
        }
      }
      i := i + 1;
    }
    assert ints[..i] == ints;
    assert list == CategoricalCandidates(df);
    names := FromKeys(list);
  }

  /** `select_dtypes(include=['category', 'object'])` */
  const CategoryKinds: set<DType> := {Category, Object}
  /** `select_dtypes(include='integer')` */
  const IntegerKinds: set<DType> := {Int64}
  /** `select_dtypes(include=np.number)` */
  const NumberKinds: set<DType> := {Int64, Float64}

  /** Integer columns with fewer distinct values than this count as categorical. */
  const CategoricalThreshold := 20

  /** The names of `ints` whose columns have fewer than 20 distinct values, in order. */
  function LowCardinality(t: Table, ints: seq<string>): (r: seq<string>)
    requires WellFormed(t) && forall x | x in ints :: x in t.names
    ensures forall x | x in r :: x in ints
  {
    if ints == [] then []
    else
      var last := ints[|ints| - 1];
      LowCardinality(t, ints[..|ints| - 1]) + if NUnique(t, last) < CategoricalThreshold then [last] else []
  }

  /** A name is kept exactly when it is among `ints` and its column has fewer than 20
      distinct values. */
  lemma {:induction false} LowCardinalityMembers(t: Table, ints: seq<string>)
    requires WellFormed(t) && forall x | x in ints :: x in t.names
    ensures forall x :: x in LowCardinality(t, ints) <==> x in ints && NUnique(t, x) < CategoricalThreshold
  {
    if ints != [] {
      var init := ints[..|ints| - 1];
      assert forall x | x in init :: x in ints;
      LowCardinalityMembers(t, init);
      assert ints == init + [ints[|ints| - 1]];
    }
  }

  lemma LowCardinalityStep(t: Table, ints: seq<string>, i: int)
    requires WellFormed(t) && (forall x | x in ints :: x in t.names) && 0 <= i < |ints|
    ensures LowCardinality(t, ints[..i + 1]) ==
            LowCardinality(t, ints[..i]) + if NUnique(t, ints[i]) < CategoricalThreshold then [ints[i]] else []
  {
    assert ints[..i + 1][..i] == ints[..i];
    assert forall x | x in ints[..i + 1] :: x in ints;
    assert forall x | x in ints[..i] :: x in ints;
  }

  /** The next integer column is neither an object or category column, nor among those
      already appended. */
  lemma LowCardinalityHolds(t: Table, ints: seq<string>, i: int)
    requires Frames.Valid(t) && ints == ColumnsOfKind(t, IntegerKinds) && 0 <= i < |ints|
    ensures ints[i] !in ColumnsOfKind(t, CategoryKinds) + LowCardinality(t, ints[..i])
  {
    ColumnsOfKindSpec(t, CategoryKinds);
    ColumnsOfKindSpec(t, IntegerKinds);
    LowCardinalityMembers(t, ints[..i]);
  }

  /** `list(dict.fromkeys(s))`: the first occurrence of each element, in order. */
  function FromKeys(s: seq<string>): (r: seq<string>)
    ensures Distinct(r)
    ensures forall x :: x in r <==> x in s
    ensures Distinct(s) ==> r == s
  {
    if s == [] then []
    else
      var d := FromKeys(s[..|s| - 1]);
      var last := s[|s| - 1];
      assert forall x | x in s[..|s| - 1] :: x in s;
      assert Distinct(s) ==> Distinct(s[..|s| - 1]) && last !in s[..|s| - 1];
      if last in d then d else d + [last]
  }

  /** The list built before repeats are removed: the category and object columns, then the
      integer columns with few distinct values. */
  function CategoricalCandidates(t: Table): seq<string>
    requires Frames.Valid(t)
  {
    ColumnsOfKind(t, CategoryKinds) + LowCardinality(t, ColumnsOfKind(t, IntegerKinds))
  }

  /** The categorical column names of a loaded table. */
  function CategoricalColumns(t: Table): (r: seq<string>)
    requires Frames.Valid(t)
    ensures Distinct(r) && forall x | x in r :: x in t.names
  {
    ColumnsOfKindSpec(t, CategoryKinds);
    ColumnsOfKindSpec(t, IntegerKinds);
    FromKeys(CategoricalCandidates(t))
  }

  /** The categorical names are, without repeats, the category and object columns in table
      order, followed by the integer columns with fewer than 20 distinct values, also in table
      order. */
  lemma CategoricalColumnsSpec(t: Table)
    requires Frames.Valid(t)
    ensures var r := CategoricalColumns(t);
            var objs := ColumnsOfKind(t, CategoryKinds);
            Distinct(r) &&
            |objs| <= |r| && r[..|objs|] == objs && InTableOrder(t.names, objs) &&
            InTableOrder(t.names, r[|objs|..]) &&
            (forall x :: x in r[|objs|..] <==> x in t.names && DTypeOf(t, x) == Int64 && NUnique(t, x) < CategoricalThreshold) &&
            forall x :: x in r <==> (x in t.names &&
              (DTypeOf(t, x) in CategoryKinds || (DTypeOf(t, x) == Int64 && NUnique(t, x) < CategoricalThreshold)))
  {
    var objs := ColumnsOfKind(t, CategoryKinds);
    var ints := ColumnsOfKind(t, IntegerKinds);
    ColumnsOfKindSpec(t, CategoryKinds);
    ColumnsOfKindSpec(t, IntegerKinds);
    LowCardinalityDistinct(t, ints);
    LowCardinalityMembers(t, ints);
    LowCardinalityOrdered(t, ints);
    var low := LowCardinality(t, ints);
    assert forall x | x in low :: x !in objs;
    DistinctConcat(objs, low);
    assert CategoricalCandidates(t) == objs + low;
    assert (objs + low)[|objs|..] == low;
  }

  /** Keeping some of the integer columns keeps them in table order. */
  lemma {:induction false} LowCardinalityOrdered(t: Table, ints: seq<string>)
    requires WellFormed(t) && InTableOrder(t.names, ints)
    ensures InTableOrder(t.names, LowCardinality(t, ints))
  {
    if ints != [] {
      var init := ints[..|ints| - 1];
      var last := ints[|ints| - 1];
      InTableOrderPrefix(t.names, ints, |ints| - 1);
      LowCardinalityOrdered(t, init);
      var front := LowCardinality(t, init);
      forall x | x in front ensures IndexOf(t.names, x) < IndexOf(t.names, last) {
        var k :| 0 <= k < |init| && init[k] == x;
        assert ints[k] == x;
      }
      if NUnique(t, last) < CategoricalThreshold {
        InTableOrderAppend(t.names, front, last);
      } else {
        assert LowCardinality(t, ints) == front;
      }
    }
  }

  lemma {:induction false} LowCardinalityDistinct(t: Table, ints: seq<string>)
    requires WellFormed(t) && Distinct(ints) && forall x | x in ints :: x in t.names
    ensures Distinct(LowCardinality(t, ints))
  {
    if ints != [] {
      var init := ints[..|ints| - 1];
      assert forall x | x in init :: x in ints;
      LowCardinalityDistinct(t, init);
      assert ints[|ints| - 1] !in init;
    }
  }

  lemma DistinctConcat(a: seq<string>, b: seq<string>)
    requires Distinct(a) && Distinct(b) && forall x | x in b :: x !in a
    ensures Distinct(a + b)
  {
    forall i, j | 0 <= i < j < |a + b| ensures (a + b)[i] != (a + b)[j] {
      if j >= |a| && i < |a| {
        assert (a + b)[j] in b;
      }
    }
  }

  // ---------------------------------------------------------------- the active dataset

  /** The default dataset: `diamonds` when registered, otherwise the first key, if any. */
  function DefaultKey(available: Registry): (k: Option<string>)
    ensures k.None? <==> "diamonds" !in available.paths && available.keys == []
    ensures "diamonds" in available.paths ==> k == Some("diamonds")
    ensures "diamonds" !in available.paths && available.keys != [] ==> k == Some(available.keys[0])
  {
    if "diamonds" in available.paths then Some("diamonds")
    else if available.keys != [] then Some(available.keys[0])
    else None
  }

  const NoDefaultMessage := "Could not load a default dataset. No datasets found or default failed to load."

  /** The module state: the registry built at import, and the active manager and its name. */
  class ActiveDataset {
    const available: Registry
    var activeManager: CsvDataManager?
    var activeName: Option<string>

    /** A manager is active exactly when a name is, and it is a loaded manager of that key. */
    predicate Valid() reads this, activeManager {
      RegistryValid(available) &&
      (activeManager == null <==> activeName.None?) &&
      (activeManager != null ==>
         activeManager.Valid() && activeManager.isLoaded &&
         activeName.value in available.paths && activeManager.filePath == available.paths[activeName.value])
    }

    /** The state at import: the discovered registry, and nothing active. */
    constructor (available: Registry)
      requires RegistryValid(available)
      ensures this.available == available && activeManager == null && activeName == None && Valid()
    {
      this.available := available;
      activeManager := null;
      activeName := None;
    }

    /** `load_dataset(key)`. `read` is what reading the key's file gives. A manager is
        created and loaded; it becomes active, under `key`, only when loading succeeds. */
    method LoadDataset(key: string, read: Option<Table>) returns (ok: bool)
      requires Valid()
      requires read.Some? ==> Frames.Valid(read.value)
      modifies this
      ensures Valid()
      ensures ok <==> key in available.paths && read.Some?
      ensures ok ==> activeName == Some(key) && fresh(activeManager) &&
                     activeManager.processed == read && activeManager.filePath == available.paths[key] &&
                     activeManager.sourceName == (if key != "" then key else available.paths[key].stem)
      ensures !ok ==> activeManager == old(activeManager) && activeName == old(activeName)
    {
      if key !in available.paths {
        return false;
      }
      var path := available.paths[key];
      var manager := new CsvDataManager(path, Some(key));
      var loaded := manager.LoadAndPrepareData(read);
      if loaded.Fail? {
        return false;
      }
      activeManager := manager;
      activeName := Some(key);
      return true;
    }

    /** `get_active_data_manager`. `read` is what reading the default key's file gives.
        The active manager is returned; with none active, the one default key is loaded,
        and when there is no default or it fails a `RuntimeError` is raised. */
    method GetActiveDataManager(read: Option<Table>) returns (r: Result<CsvDataManager>)
      requires Valid()
      requires read.Some? ==> Frames.Valid(read.value)
      modifies this
      ensures Valid()
      ensures old(activeManager) != null ==> r == Ok(old(activeManager)) && activeManager == old(activeManager) && activeName == old(activeName)
      ensures old(activeManager) == null ==>
        var key := DefaultKey(available);
        if key.Some? && key.value != "" && read.Some? then
          r.Ok? && r.value == activeManager && activeName == key && activeManager.processed == read
        else
          r == Err(RuntimeError(NoDefaultMessage)) && activeManager == null && activeName == None
    {
      if activeManager != null {
        return Ok(activeManager);
      }
      var key := DefaultKey(available);
      if key.Some? && key.value != "" {
        assert key.value in available.paths;
        var ok := LoadDataset(key.value, read);
        if ok {
          return Ok(activeManager);
        }
      }
      return Err(RuntimeError(NoDefaultMessage));
    }
  }
}
