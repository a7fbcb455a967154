/** Column shaping shared by every API handler: keep the requested columns, or drop the
    unwanted ones. */
module ApiUtils {
  import opened Wrappers
  import opened Frames

  /** `get_shaped_dataframe(base_df, include_columns, exclude_columns)`.
      An include list, when given, wins over the exclude list. */
  function GetShapedDataframe(base: Table, includeCols: Option<seq<string>>, excludeCols: Option<seq<string>>): (r: Table)
    requires Valid(base)
    ensures WellFormed(r)
    ensures includeCols.Some? && KeepIn(includeCols.value, base.names) != [] ==>
              r == Select(base, KeepIn(includeCols.value, base.names))
    ensures includeCols.Some? && includeCols.value != [] && KeepIn(includeCols.value, base.names) == [] ==>
              r.names == includeCols.value && r.rows == []
    ensures includeCols.None? && excludeCols.Some? ==>
              r == Select(base, DropIn(base.names, excludeCols.value))
    ensures (includeCols == Some([]) || (includeCols.None? && excludeCols.None?)) ==> r == base
  {
    match includeCols
    case Some(inc) =>
      var valid := KeepIn(inc, base.names);
      if valid == [] then
        if inc != [] then Table(inc, seq(|inc|, _ => Object), []) else base
      else Select(base, valid)
    case None =>
      match excludeCols
      case Some(exc) =>
        var valid := KeepIn(exc, base.names);
        if valid != [] then
          DropInRelevant(base.names, exc);
          Select(base, DropIn(base.names, valid))
        else
          SelectNothingDropped(base, exc);
          base
      case None => base
  }

  /** When none of the excluded names exist, dropping them keeps the table as it was. */
  lemma SelectNothingDropped(base: Table, exc: seq<string>)
    requires Valid(base) && KeepIn(exc, base.names) == []
    ensures Select(base, DropIn(base.names, exc)) == base
  {
    assert forall x | x in base.names :: x !in exc;
    DropInNone(base.names, exc);
    SelectAll(base);
  }

  /** The kept columns are the requested ones that exist, each with its cells, in the
      order the caller asked for them, not the order of the base table. */
  lemma IncludeKeepsRequestedOrder(base: Table, inc: seq<string>)
    requires Valid(base) && KeepIn(inc, base.names) != []
    ensures var r := GetShapedDataframe(base, Some(inc), None);
            r.names == KeepIn(inc, base.names) &&
            (forall x :: x in r.names <==> x in inc && x in base.names) &&
            |r.rows| == |base.rows| &&
            forall k, j | 0 <= k < |r.rows| && 0 <= j < |r.names| ::
              r.rows[k][j] == base.rows[k][IndexOf(base.names, r.names[j])]
  {
  }

  /** An include list that matches nothing yields the requested names as empty
      object-typed columns with no rows. */
  lemma IncludeNoMatchGivesEmptyFrame(base: Table, inc: seq<string>)
    requires Valid(base) && inc != [] && forall x | x in inc :: x !in base.names
    ensures var r := GetShapedDataframe(base, Some(inc), None);
            r.names == inc && r.rows == [] && IsEmpty(r) &&
            forall j | 0 <= j < |r.dtypes| :: r.dtypes[j] == Object
  {
    KeepInNone(inc, base.names);
  }

  /** When an include list is given, the exclude list plays no part. */
  lemma IncludeIgnoresExclude(base: Table, inc: seq<string>, exc: Option<seq<string>>)
    requires Valid(base)
    ensures GetShapedDataframe(base, Some(inc), exc) == GetShapedDataframe(base, Some(inc), None)
  {
  }

  /** Excluding drops exactly the named columns that exist and keeps the rest in table order;
      names that do not exist are ignored. */
  lemma ExcludeDropsExistingNames(base: Table, exc: seq<string>)
    requires Valid(base)
    ensures var r := GetShapedDataframe(base, None, Some(exc));
            r.names == DropIn(base.names, exc) &&
            (forall x :: x in r.names <==> x in base.names && x !in exc) &&
            Distinct(r.names) && |r.rows| == |base.rows|
  {
    DropInDistinct(base.names, exc);
    if KeepIn(exc, base.names) == [] {
      SelectNothingDropped(base, exc);
    }
  }

  /** Excluding only names the table does not have returns the table unchanged. */
  lemma ExcludeUnknownNamesIsIdentity(base: Table, exc: seq<string>)
    requires Valid(base) && forall x | x in exc :: x !in base.names
    ensures GetShapedDataframe(base, None, Some(exc)) == base
  {
    KeepInNone(exc, base.names);
  }

  /** The result of shaping keeps unique column names whenever the request does. */
  lemma ShapedIsValid(base: Table, includeCols: Option<seq<string>>, excludeCols: Option<seq<string>>)
    requires Valid(base)
    requires includeCols.Some? ==> Distinct(includeCols.value)
    ensures Valid(GetShapedDataframe(base, includeCols, excludeCols))
  {
    match includeCols
    case Some(inc) => KeepInDistinct(inc, base.names);
    case None =>
      if excludeCols.Some? {
        ExcludeDropsExistingNames(base, excludeCols.value);
      }
  }

  /** Shaping the shaped table again with the same request changes nothing more. */
  lemma {:induction false} ShapingIsIdempotent(base: Table, includeCols: Option<seq<string>>, excludeCols: Option<seq<string>>)
    requires Valid(base)
    requires includeCols.Some? ==> Distinct(includeCols.value)
    ensures var once := GetShapedDataframe(base, includeCols, excludeCols);
            Valid(once) && GetShapedDataframe(once, includeCols, excludeCols) == once
  {
    ShapedIsValid(base, includeCols, excludeCols);
    var once := GetShapedDataframe(base, includeCols, excludeCols);
    match includeCols
    case Some(inc) =>
      var valid := KeepIn(inc, base.names);
      KeepInDistinct(inc, base.names);
      if valid != [] {
        KeepInOfKept(inc, base.names);
        assert KeepIn(inc, once.names) == valid;
        SelectAll(once);
      } else if inc != [] {
        assert once.names == inc;
        KeepInAll(inc, inc);
        assert KeepIn(inc, once.names) == inc;
        SelectAll(once);
      }
    case None =>
      if excludeCols.Some? {
        var exc := excludeCols.value;
        ExcludeDropsExistingNames(base, exc);
        assert forall x | x in once.names :: x !in exc;
        ExcludeUnknownNamesIsIdentity(once, exc);
      }
  }

  /** Keeping the names of `s` found in `pool`, then keeping again those found in the result,
      gives the first result back when `s` has no repeats. */
  lemma {:induction false} KeepInOfKept(s: seq<string>, pool: seq<string>)
    requires Distinct(s)
    ensures KeepIn(s, KeepIn(s, pool)) == KeepIn(s, pool)
  {
    var kept := KeepIn(s, pool);
    KeepInSamePool(s, kept, pool);
  }

  /** `KeepIn` depends only on which elements of `s` the pool holds. */
  lemma {:induction false} KeepInSamePool(s: seq<string>, p: seq<string>, q: seq<string>)
    requires forall x | x in s :: x in p <==> x in q
    ensures KeepIn(s, p) == KeepIn(s, q)
  {
    if s != [] {
      KeepInSamePool(s[1..], p, q);
    }
  }
}
