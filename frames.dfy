/** An abstract dataframe: named columns with a dtype tag each, and rows of cell values.
    Every part of the dashboard works on tables of this shape. */
module Frames {
  import Text

  /** The dtype family of a column, as `select_dtypes` distinguishes them. */
  datatype DType = Int64 | Float64 | Boolean | Object | Category | DateTime

  /** A cell. A float keeps the text Python prints for it, so that no floating-point
      arithmetic enters the model. */
  datatype Value = Missing | Int(i: int) | Float(repr: string) | Text(s: string) | Flag(b: bool)

  /** Column names in order, one dtype per column, and the rows. */
  datatype Table = Table(names: seq<string>, dtypes: seq<DType>, rows: seq<seq<Value>>)

  predicate Distinct<T(==)>(s: seq<T>) {
    forall i, j | 0 <= i < j < |s| :: s[i] != s[j]
  }

  /** Every row has one cell per column and every column has a dtype. */
  predicate WellFormed(t: Table) {
    |t.dtypes| == |t.names| && forall k | 0 <= k < |t.rows| :: |t.rows[k]| == |t.names|
  }

  /** A table as `read_csv` produces it: well formed, with unique column names. */
  predicate Valid(t: Table) {
    WellFormed(t) && Distinct(t.names)
  }

  /** `DataFrame.empty`: no rows, or no columns. */
  predicate IsEmpty(t: Table) {
    |t.rows| == 0 || |t.names| == 0
  }

  /** The position of the first occurrence of `x`. */
  function IndexOf(s: seq<string>, x: string): (r: nat)
    requires x in s
    ensures r < |s| && s[r] == x
    ensures forall k | 0 <= k < r :: s[k] != x
  {
    if s[0] == x then 0 else 1 + IndexOf(s[1..], x)
  }

  lemma IndexOfDistinct(s: seq<string>, j: nat)
    requires Distinct(s) && j < |s|
    ensures IndexOf(s, s[j]) == j
  {
  }

  /** The dtype of the column named `name`. */
  function DTypeOf(t: Table, name: string): DType
    requires WellFormed(t) && name in t.names
  {
    t.dtypes[IndexOf(t.names, name)]
  }

  /** The cells of one row under the columns `cols`, in the order of `cols`. */
  function Project(row: seq<Value>, names: seq<string>, cols: seq<string>): (r: seq<Value>)
    requires |row| == |names|
    requires forall c | c in cols :: c in names
    ensures |r| == |cols|
    ensures forall j | 0 <= j < |cols| :: r[j] == row[IndexOf(names, cols[j])]
  {
    seq(|cols|, j requires 0 <= j < |cols| => row[IndexOf(names, cols[j])])
  }

  /** `df[cols]`: the columns named in `cols`, in that order, with every row. */
  function Select(t: Table, cols: seq<string>): (r: Table)
    requires WellFormed(t)
    requires forall c | c in cols :: c in t.names
    ensures WellFormed(r) && r.names == cols && |r.rows| == |t.rows|
    ensures forall j | 0 <= j < |cols| :: r.dtypes[j] == DTypeOf(t, cols[j])
    ensures forall k, j | 0 <= k < |r.rows| && 0 <= j < |cols| ::
      r.rows[k][j] == t.rows[k][IndexOf(t.names, cols[j])]
  {
    Table(cols,
          seq(|cols|, j requires 0 <= j < |cols| => DTypeOf(t, cols[j])),
          seq(|t.rows|, k requires 0 <= k < |t.rows| => Project(t.rows[k], t.names, cols)))
  }

  /** Selecting all columns of a table with unique names, in their own order, changes nothing. */
  lemma SelectAll(t: Table)
    requires Valid(t)
    ensures Select(t, t.names) == t
  {
    var r := Select(t, t.names);
    forall j | 0 <= j < |t.names| ensures r.dtypes[j] == t.dtypes[j] {
      IndexOfDistinct(t.names, j);
    }
    forall k | 0 <= k < |t.rows| ensures r.rows[k] == t.rows[k] {
      forall j | 0 <= j < |t.names| ensures r.rows[k][j] == t.rows[k][j] {
        IndexOfDistinct(t.names, j);
      }
    }
  }

  /** The elements of `s` that occur in `pool`, in the order of `s`
      (`[c for c in s if c in pool]`). */
  function KeepIn(s: seq<string>, pool: seq<string>): (r: seq<string>)
    ensures forall x :: x in r <==> x in s && x in pool
    ensures |r| <= |s|
  {
    if s == [] then [] else (if s[0] in pool then [s[0]] else []) + KeepIn(s[1..], pool)
  }

  /** The elements of `s` that do not occur in `pool`, in the order of `s`. */
  function DropIn(s: seq<string>, pool: seq<string>): (r: seq<string>)
    ensures forall x :: x in r <==> x in s && x !in pool
    ensures |r| <= |s|
  {
    if s == [] then [] else (if s[0] in pool then [] else [s[0]]) + DropIn(s[1..], pool)
  }

  lemma {:induction false} KeepInDistinct(s: seq<string>, pool: seq<string>)
    requires Distinct(s)
    ensures Distinct(KeepIn(s, pool))
  {
    if s != [] {
      KeepInDistinct(s[1..], pool);
      assert s[0] !in s[1..];
    }
  }

  lemma {:induction false} DropInDistinct(s: seq<string>, pool: seq<string>)
    requires Distinct(s)
    ensures Distinct(DropIn(s, pool))
  {
    if s != [] {
      DropInDistinct(s[1..], pool);
      assert s[0] !in s[1..];
    }
  }

  /** Keeping what is in a pool that holds everything keeps everything. */
  lemma {:induction false} KeepInAll(s: seq<string>, pool: seq<string>)
    requires forall x | x in s :: x in pool
    ensures KeepIn(s, pool) == s
  {
    if s != [] {
      KeepInAll(s[1..], pool);
    }
  }

  /** Keeping what is not there keeps nothing. */
  lemma {:induction false} KeepInNone(s: seq<string>, pool: seq<string>)
    requires forall x | x in s :: x !in pool
    ensures KeepIn(s, pool) == []
  {
    if s != [] {
      KeepInNone(s[1..], pool);
    }
  }

  /** Dropping what is not there drops nothing. */
  lemma {:induction false} DropInNone(s: seq<string>, pool: seq<string>)
    requires forall x | x in s :: x !in pool
    ensures DropIn(s, pool) == s
  {
    if s != [] {
      DropInNone(s[1..], pool);
    }
  }

  /** Only the elements of the pool that also occur in `s` matter to `DropIn`. */
  lemma {:induction false} DropInRelevant(s: seq<string>, pool: seq<string>)
    ensures DropIn(s, KeepIn(pool, s)) == DropIn(s, pool)
  {
    if s != [] {
      DropInRelevant(s[1..], pool);
      assert s[0] in KeepIn(pool, s) <==> s[0] in pool;
      assert forall x | x in s[1..] :: x in KeepIn(pool, s[1..]) <==> x in KeepIn(pool, s);
      DropInSamePool(s[1..], KeepIn(pool, s[1..]), KeepIn(pool, s));
    }
  }

  /** `DropIn` depends only on which elements of `s` the pool holds. */
  lemma {:induction false} DropInSamePool(s: seq<string>, p: seq<string>, q: seq<string>)
    requires forall x | x in s :: x in p <==> x in q
    ensures DropIn(s, p) == DropIn(s, q)
  {
    if s != [] {
      DropInSamePool(s[1..], p, q);
    }
  }

  /** The names of the columns whose dtype is among `kinds`, in table order
      (`select_dtypes(include=kinds).columns`). */
  function NamesOfKind(names: seq<string>, dtypes: seq<DType>, kinds: set<DType>): (r: seq<string>)
    requires |dtypes| == |names|
    ensures |r| <= |names|
    ensures forall x | x in r :: x in names
  {
    if names == [] then []
    else (if dtypes[0] in kinds then [names[0]] else []) + NamesOfKind(names[1..], dtypes[1..], kinds)
  }

  function ColumnsOfKind(t: Table, kinds: set<DType>): seq<string>
    requires WellFormed(t)
  {
    NamesOfKind(t.names, t.dtypes, kinds)
  }

  /** Every name of `r` is a name of `names`, and `r` lists them in the order they have there. */
  predicate InTableOrder(names: seq<string>, r: seq<string>) {
    (forall x | x in r :: x in names) &&
    forall i, j | 0 <= i < j < |r| :: IndexOf(names, r[i]) < IndexOf(names, r[j])
  }

  /** A prefix of a list in table order is in table order. */
  lemma InTableOrderPrefix(names: seq<string>, r: seq<string>, n: nat)
    requires InTableOrder(names, r) && n <= |r|
    ensures InTableOrder(names, r[..n])
  {
    assert forall x | x in r[..n] :: x in r;
    forall i, j | 0 <= i < j < n ensures IndexOf(names, r[..n][i]) < IndexOf(names, r[..n][j]) {
      assert r[..n][i] == r[i] && r[..n][j] == r[j];
    }
  }

  /** A name placed after every name of a list in table order extends it in table order. */
  lemma InTableOrderAppend(names: seq<string>, r: seq<string>, x: string)
    requires InTableOrder(names, r) && x in names
    requires forall y | y in r :: IndexOf(names, y) < IndexOf(names, x)
    ensures InTableOrder(names, r + [x])
  {
    var s := r + [x];
    forall i, j | 0 <= i < j < |s| ensures IndexOf(names, s[i]) < IndexOf(names, s[j]) {
      assert s[i] == r[i];
      if j < |r| {
        assert s[j] == r[j];
      } else {
        assert r[i] in r;
      }
    }
  }

  /** A column name is selected by dtype exactly when its column has a dtype among `kinds`;
      with unique names the selection has unique names too. */
  lemma {:induction false} NamesOfKindSpec(names: seq<string>, dtypes: seq<DType>, kinds: set<DType>)
    requires |dtypes| == |names| && Distinct(names)
    ensures forall x :: x in NamesOfKind(names, dtypes, kinds) <==>
                       x in names && dtypes[IndexOf(names, x)] in kinds
    ensures Distinct(NamesOfKind(names, dtypes, kinds))
  {
    if names != [] {
      NamesOfKindSpec(names[1..], dtypes[1..], kinds);
      assert names[0] !in names[1..];
      forall x | x in names[1..] ensures IndexOf(names, x) == 1 + IndexOf(names[1..], x) {
      }
    }
  }

  /** With unique names, the selection lists its names in table order. */
  lemma {:induction false} NamesOfKindOrdered(names: seq<string>, dtypes: seq<DType>, kinds: set<DType>)
    requires |dtypes| == |names| && Distinct(names)
    ensures InTableOrder(names, NamesOfKind(names, dtypes, kinds))
  {
    if names != [] {
      var rest := NamesOfKind(names[1..], dtypes[1..], kinds);
      NamesOfKindOrdered(names[1..], dtypes[1..], kinds);
      assert names[0] !in names[1..];
      var r := NamesOfKind(names, dtypes, kinds);
      var h := if dtypes[0] in kinds then [names[0]] else [];
      assert r == h + rest;
      forall x | x in rest ensures x in names[1..] && IndexOf(names, x) == 1 + IndexOf(names[1..], x) {
      }
      forall i, j | 0 <= i < j < |r| ensures IndexOf(names, r[i]) < IndexOf(names, r[j]) {
        assert r[j] == rest[j - |h|];
        if i >= |h| {
          assert r[i] == rest[i - |h|];
        }
      }
    }
  }

  /** Without assuming unique names: a name is selected exactly when some column of that
      name has a dtype among `kinds`, as `select_dtypes` keeps each column by its own dtype. */
  lemma {:induction false} NamesOfKindAt(names: seq<string>, dtypes: seq<DType>, kinds: set<DType>)
    requires |dtypes| == |names|
    ensures forall x :: x in NamesOfKind(names, dtypes, kinds) <==>
                       exists j | 0 <= j < |names| :: names[j] == x && dtypes[j] in kinds
  {
    if names != [] {
      NamesOfKindAt(names[1..], dtypes[1..], kinds);
      forall x | (exists j | 0 <= j < |names| :: names[j] == x && dtypes[j] in kinds)
        ensures x in NamesOfKind(names, dtypes, kinds)
      {
        var j :| 0 <= j < |names| && names[j] == x && dtypes[j] in kinds;
        if j > 0 {
          assert names[1..][j - 1] == x && dtypes[1..][j - 1] in kinds;
        }
      }
      forall x | x in NamesOfKind(names[1..], dtypes[1..], kinds)
        ensures exists j | 0 <= j < |names| :: names[j] == x && dtypes[j] in kinds
      {
        var j :| 0 <= j < |names| - 1 && names[1..][j] == x && dtypes[1..][j] in kinds;
        assert names[j + 1] == x && dtypes[j + 1] in kinds;
      }
    }
  }

  lemma ColumnsOfKindSpec(t: Table, kinds: set<DType>)
    requires Valid(t)
    ensures forall x :: x in ColumnsOfKind(t, kinds) <==> x in t.names && DTypeOf(t, x) in kinds
    ensures Distinct(ColumnsOfKind(t, kinds))
    ensures InTableOrder(t.names, ColumnsOfKind(t, kinds))
  {
    NamesOfKindSpec(t.names, t.dtypes, kinds);
    NamesOfKindOrdered(t.names, t.dtypes, kinds);
  }

  /** The cells of column `j`, top to bottom. */
  function Column(t: Table, j: nat): (c: seq<Value>)
    requires WellFormed(t) && j < |t.names|
    ensures |c| == |t.rows| && forall k | 0 <= k < |t.rows| :: c[k] == t.rows[k][j]
  {
    seq(|t.rows|, k requires 0 <= k < |t.rows| => t.rows[k][j])
  }

  /** The distinct non-missing values of a column. */
  function DistinctValues(t: Table, j: nat): set<Value>
    requires WellFormed(t) && j < |t.names|
  {
    set v | v in Column(t, j) && v != Missing
  }

  /** `df[name].nunique()`: how many distinct non-missing values the column holds. */
  function NUnique(t: Table, name: string): nat
    requires WellFormed(t) && name in t.names
  {
    |DistinctValues(t, IndexOf(t.names, name))|
  }

  /** `astype(str)` of one cell. */
  function Show(v: Value): string {
    match v
    case Missing => "nan"
    case Int(i) => Text.IntToString(i)
    case Float(r) => r
    case Text(s) => s
    case Flag(b) => if b then "True" else "False"
  }
}
