/**
  * `validate_columns` (gui/load_data.py): the required columns of instructor
  * and course data and the numbering of the `pref_` columns.
  */
module ColumnValidation {
  import opened Wrappers
  import opened Text
  import opened ColumnNames
  import opened PreferenceColumns

  /** Python's `str.startswith('pref_')`. */
  predicate IsPrefColumn(col: string) {
    StartsWith(col, "pref_")
  }

  predicate NotPrefColumn(col: string) {
    !IsPrefColumn(col)
  }

  /** `[col for col in names if col not in columns]`. */
  function Missing(names: seq<string>, columns: seq<string>): (r: seq<string>)
    ensures r == [] <==> forall k :: 0 <= k < |names| ==> names[k] in columns
    ensures forall k :: 0 <= k < |r| ==> r[k] in names && r[k] !in columns
  {
    if names == [] then []
    else (if names[0] in columns then [] else [names[0]]) + Missing(names[1..], columns)
  }

  /** `[1, 2, ..., n]`. */
  function OneTo(n: nat): (r: seq<nat>)
    ensures |r| == n && forall k :: 0 <= k < n ==> r[k] == k + 1
  {
    seq(n, k requires 0 <= k < n => k + 1)
  }

  /**
    * `sorted(numbers) == list(range(1, len(numbers) + 1))`: sorting gives
    * `[1..n]` exactly when the numbers are a rearrangement of it.
    */
  predicate Sequential(numbers: seq<nat>) {
    multiset(numbers) == multiset(OneTo(|numbers|))
  }

  /** How often each value occurs in `[1..n]`: once for 1 to n, never otherwise. */
  lemma {:induction false} OneToCounts(n: nat, v: nat)
    ensures multiset(OneTo(n))[v] == if 1 <= v <= n then 1 else 0
  {
    if n > 0 {
      OneToCounts(n - 1, v);
      assert OneTo(n) == OneTo(n - 1) + [n];
    }
  }

  /** Sequential numbering means each of 1 to n once and nothing else: no gap, no duplicate. */
  lemma SequentialMeans(numbers: seq<nat>)
    ensures Sequential(numbers) <==>
      forall v: nat :: multiset(numbers)[v] == if 1 <= v <= |numbers| then 1 else 0
  {
    var m, o := multiset(numbers), multiset(OneTo(|numbers|));
    forall v: nat
      ensures o[v] == if 1 <= v <= |numbers| then 1 else 0
    {
      OneToCounts(|numbers|, v);
    }
    if forall v: nat :: m[v] == if 1 <= v <= |numbers| then 1 else 0 {
      assert forall v: nat :: m[v] == o[v];
      assert m == o;
    }
  }

  /** `int(re.search(r'\d+$', col).group())` for each preference column, or None when one has no digits at its end. */
  function PrefNumbers(prefCols: seq<string>): (r: Option<seq<nat>>)
    ensures r.Some? <==> forall k :: 0 <= k < |prefCols| ==> TrailingDigits(MatchEnd(prefCols[k])) != []
    ensures r.Some? ==> (
      && |r.value| == |prefCols|
      && forall k :: 0 <= k < |prefCols| ==> r.value[k] == DigitsValue(TrailingDigits(MatchEnd(prefCols[k]))))
  {
    if forall k :: 0 <= k < |prefCols| ==> TrailingDigits(MatchEnd(prefCols[k])) != []
    then Some(seq(|prefCols|, k requires 0 <= k < |prefCols| => DigitsValue(TrailingDigits(MatchEnd(prefCols[k])))))
    else None
  }

  /**
    * `validate_columns(df, required_columns, data_type)`: for instructors,
    * every required non-`pref_` column must be present, some `pref_` column
    * must exist and the `pref_` numbers must run 1 to n; for courses, every
    * required column must be present; any other data type is an error.
    */
  function ValidateColumns(columns: seq<string>, required: seq<string>, dataType: string): (r: Result<()>)
    ensures dataType != "instructor" && dataType != "course" ==>
      r == Err("Unknown data type: " + dataType + ". Valid options are 'instructor' and 'course'.")
  {
    if dataType == "instructor" then
      var missing := Missing(Filter(required, NotPrefColumn), columns);
      if missing != [] then Err("Missing required columns in instructor data: " + Join(missing))
      else
        var prefCols := Filter(columns, IsPrefColumn);
        if prefCols == [] then Err("No valid preference columns found in instructor data.")
        else
          assert prefCols[0] in columns;
          match PrefNumbers(prefCols)
          case None => Err("AttributeError")
          case Some(numbers) =>
            if !Sequential(numbers)
            then Err("Preference columns in instructor data are not sequential or contain duplicates.")
            else Ok(())
    else if dataType == "course" then
      var missing := Missing(required, columns);
      if missing != [] then Err("Missing required columns in course data: " + Join(missing))
      else Ok(())
    else Err("Unknown data type: " + dataType + ". Valid options are 'instructor' and 'course'.")
  }

  /** Instructor columns pass exactly when the required ones are there and the `pref_` numbers run 1 to n. */
  lemma ValidateInstructorColumns(columns: seq<string>, required: seq<string>)
    ensures ValidateColumns(columns, required, "instructor").Ok? <==>
      && (forall k :: 0 <= k < |required| && !IsPrefColumn(required[k]) ==> required[k] in columns)
      && var prefCols := Filter(columns, IsPrefColumn);
         && prefCols != []
         && PrefNumbers(prefCols).Some?
         && Sequential(PrefNumbers(prefCols).value)
  {
    var nonPref := Filter(required, NotPrefColumn);
    assert Missing(nonPref, columns) == [] <==> forall k :: 0 <= k < |nonPref| ==> nonPref[k] in columns;
  }

  /** Instructor data that passes has a `pref_` column. */
  lemma ValidatedHasPreference(columns: seq<string>, required: seq<string>)
    requires ValidateColumns(columns, required, "instructor").Ok?
    ensures exists k :: 0 <= k < |columns| && IsPrefColumn(columns[k])
  {
    var prefCols := Filter(columns, IsPrefColumn);
    assert prefCols[0] in columns;
  }

  /** Course columns pass exactly when every required column is there. */
  lemma ValidateCourseColumns(columns: seq<string>, required: seq<string>)
    ensures ValidateColumns(columns, required, "course").Ok? <==>
      forall k :: 0 <= k < |required| ==> required[k] in columns
  {
  }
}
