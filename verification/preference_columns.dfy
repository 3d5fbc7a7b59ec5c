/**
  * `identify_and_normalize_preferences` (gui/load_data.py): the columns whose
  * names end in `_<digits>` are renamed `<base>_<digits>`, unless there are
  * none or two of them share a suffix.
  */
module PreferenceColumns {
  import opened Wrappers
  import opened Text
  import opened ColumnNames

  /** What a pattern ending in `$` may match up to: the end, or just before one final newline. */
  function MatchEnd(s: string): (t: string)
    ensures t <= s && |s| - 1 <= |t|
  {
    if s != [] && s[|s| - 1] == '\n' then s[..|s| - 1] else s
  }

  /** Where the run of ASCII digits ending at index `i` of `s` starts. */
  function DigitRunStart(s: string, i: nat): (j: nat)
    requires i <= |s|
    ensures j <= i
    ensures forall k :: j <= k < i ==> IsDigit(s[k])
    ensures j == 0 || !IsDigit(s[j - 1])
  {
    if i > 0 && IsDigit(s[i - 1]) then DigitRunStart(s, i - 1) else i
  }

  /** The longest run of ASCII digits that ends `s`. */
  function TrailingDigits(s: string): (d: string)
    ensures |d| <= |s| && d == s[|s| - |d|..] && AllDigits(d)
    ensures |d| < |s| ==> !IsDigit(s[|s| - |d| - 1])
  {
    s[DigitRunStart(s, |s|)..]
  }

  /**
    * `re.search(r'_(\d+)$', col).group(1)`: the digits after the last
    * underscore, when the name ends (or ends before a final newline) in `_`
    * and at least one digit.
    */
  function PreferenceSuffix(col: string): (r: Option<string>)
    ensures r.Some? ==> r.value != [] && AllDigits(r.value)
  {
    var t := MatchEnd(col);
    var d := TrailingDigits(t);
    if d != [] && |d| < |t| && t[|t| - |d| - 1] == '_' then Some(d) else None
  }

  /** `f"{base_name}_{suffix}"`. */
  function NewName(base: string, col: string): string
    requires PreferenceSuffix(col).Some?
  {
    base + "_" + PreferenceSuffix(col).value
  }

  /** A name with a preference suffix keeps it when renamed with any base without underscores' help. */
  lemma NewNameSuffix(base: string, col: string)
    requires PreferenceSuffix(col).Some?
    ensures PreferenceSuffix(NewName(base, col)) == PreferenceSuffix(col)
  {
    var d := PreferenceSuffix(col).value;
    var n := NewName(base, col);
    assert n == (base + "_") + d;
    assert MatchEnd(n) == n;
    TrailingDigitsOf(base + "_", d);
  }

  /** The trailing digits of text ending in a non-digit followed by digits are those digits. */
  lemma TrailingDigitsOf(a: string, d: string)
    requires a != [] && !IsDigit(a[|a| - 1]) && AllDigits(d)
    ensures TrailingDigits(a + d) == d
  {
    var s := a + d;
    var j := DigitRunStart(s, |s|);
    assert s[|a| - 1] == a[|a| - 1];
    assert forall k :: |a| <= k < |s| ==> s[k] == d[k - |a|];
    assert s[|a|..] == d;
  }

  /** Line 49: the columns with a preference suffix, in order. */
  function PreferenceColumns(columns: seq<string>): (r: seq<string>)
    ensures forall k :: 0 <= k < |r| ==> PreferenceSuffix(r[k]).Some? && r[k] in columns
    ensures forall i :: 0 <= i < |columns| && PreferenceSuffix(columns[i]).Some? ==> columns[i] in r
  {
    Filter(columns, HasPreferenceSuffix)
  }

  predicate HasPreferenceSuffix(col: string) {
    PreferenceSuffix(col).Some?
  }

  predicate Suffixed(cols: seq<string>) {
    forall k :: 0 <= k < |cols| ==> PreferenceSuffix(cols[k]).Some?
  }

  /** The suffixes of columns that all have one, in order. */
  function Suffixes(cols: seq<string>): (r: seq<string>)
    requires Suffixed(cols)
    ensures |r| == |cols|
    ensures forall k :: 0 <= k < |cols| ==> r[k] == PreferenceSuffix(cols[k]).value
  {
    seq(|cols|, k requires 0 <= k < |cols| => PreferenceSuffix(cols[k]).value)
  }

  /** The new names `base_<suffix>` of the first suffixes. */
  function NewNames(base: string, sfx: seq<string>): (r: set<string>)
    ensures forall k :: 0 <= k < |sfx| ==> base + "_" + sfx[k] in r
    ensures forall x :: x in r ==> exists k :: 0 <= k < |sfx| && x == base + "_" + sfx[k]
  {
    set k | 0 <= k < |sfx| :: base + "_" + sfx[k]
  }

  /** Lines 58-67: the new names met again after an earlier column already took them, in order. */
  function Duplicates(base: string, sfx: seq<string>): seq<string> {
    if sfx == [] then []
    else
      var n := |sfx| - 1;
      var name := base + "_" + sfx[n];
      Duplicates(base, sfx[..n]) + (if name in NewNames(base, sfx[..n]) then [name] else [])
  }

  /** Two new names agree exactly when the suffixes do. */
  lemma NewNameInjective(base: string, x: string, y: string)
    ensures base + "_" + x == base + "_" + y <==> x == y
  {
    if base + "_" + x == base + "_" + y {
      assert x == (base + "_" + x)[|base| + 1..];
      assert y == (base + "_" + y)[|base| + 1..];
    }
  }

  /** The last new name was taken already exactly when an earlier suffix is the same. */
  lemma RepeatedLast(base: string, sfx: seq<string>)
    requires sfx != []
    ensures base + "_" + sfx[|sfx| - 1] in NewNames(base, sfx[..|sfx| - 1]) <==>
      exists i :: 0 <= i < |sfx| - 1 && sfx[i] == sfx[|sfx| - 1]
  {
    var n := |sfx| - 1;
    assert forall k :: 0 <= k < n ==> sfx[..n][k] == sfx[k];
    forall i | 0 <= i < n
      ensures base + "_" + sfx[i] == base + "_" + sfx[n] <==> sfx[i] == sfx[n]
    {
      NewNameInjective(base, sfx[i], sfx[n]);
    }
  }

  /** No duplicate is reported exactly when the suffixes are pairwise distinct. */
  lemma {:induction false} DuplicatesNone(base: string, sfx: seq<string>)
    ensures Duplicates(base, sfx) == [] <==> forall i, j :: 0 <= i < j < |sfx| ==> sfx[i] != sfx[j]
  {
    if sfx != [] {
      var n := |sfx| - 1;
      DuplicatesNone(base, sfx[..n]);
      RepeatedLast(base, sfx);
      assert forall k :: 0 <= k < n ==> sfx[..n][k] == sfx[k];
    }
  }

  /** A later suffix that an earlier one took has its new name listed among the duplicates. */
  lemma {:induction false} DuplicateListed(base: string, sfx: seq<string>, i: nat, j: nat)
    requires i < j < |sfx| && sfx[i] == sfx[j]
    ensures base + "_" + sfx[j] in Duplicates(base, sfx)
  {
    var n := |sfx| - 1;
    assert forall k :: 0 <= k < n ==> sfx[..n][k] == sfx[k];
    if j < n {
      DuplicateListed(base, sfx[..n], i, j);
    } else {
      assert base + "_" + sfx[..n][i] in NewNames(base, sfx[..n]);
    }
  }

  /** `df.rename(columns=...)` after the loop: each preference column gets its new name, the rest stay. */
  function Renamed(base: string, columns: seq<string>): (r: seq<string>)
    ensures |r| == |columns|
    ensures forall i :: 0 <= i < |columns| && PreferenceSuffix(columns[i]).None? ==> r[i] == columns[i]
    ensures forall i :: 0 <= i < |columns| && PreferenceSuffix(columns[i]).Some? ==>
      r[i] == base + "_" + PreferenceSuffix(columns[i]).value
  {
    seq(|columns|, i requires 0 <= i < |columns| =>
      if PreferenceSuffix(columns[i]).Some? then NewName(base, columns[i]) else columns[i])
  }

  const NoPreferenceColumns := "No preference columns ending in '_1', '_2', etc., found in the dataset."

  /** What `identify_and_normalize_preferences` returns or raises. */
  function IdentifiedColumns(base: string, columns: seq<string>): Result<seq<string>> {
    var prefs := PreferenceColumns(columns);
    if prefs == [] then Err(NoPreferenceColumns)
    else
      var duplicates := Duplicates(base, Suffixes(prefs));
      if duplicates != [] then Err("Duplicate normalized preference columns detected: " + Join(duplicates))
      else Ok(Renamed(base, columns))
  }

  /**
    * The outcome in plain terms: an error exactly when no column has a
    * preference suffix or two of them share one; otherwise the preference
    * columns are renamed `base_<digits>` and the others kept.
    */
  lemma IdentifiedColumnsMeans(base: string, columns: seq<string>)
    ensures IdentifiedColumns(base, columns).Err? <==>
      || (forall i :: 0 <= i < |columns| ==> PreferenceSuffix(columns[i]).None?)
      || exists i, j :: 0 <= i < j < |PreferenceColumns(columns)| &&
           PreferenceSuffix(PreferenceColumns(columns)[i]) == PreferenceSuffix(PreferenceColumns(columns)[j])
    ensures IdentifiedColumns(base, columns).Ok? ==> IdentifiedColumns(base, columns).value == Renamed(base, columns)
  {
    var prefs := PreferenceColumns(columns);
    var sfx := Suffixes(prefs);
    DuplicatesNone(base, sfx);
    if prefs == [] {
      assert forall i :: 0 <= i < |columns| ==> PreferenceSuffix(columns[i]).None?;
    } else {
      assert prefs[0] in columns;
    }
  }

  /** Two columns with one suffix name the duplicate in the error. */
  lemma DuplicateNamed(base: string, columns: seq<string>, i: nat, j: nat)
    requires i < j < |PreferenceColumns(columns)|
    requires PreferenceSuffix(PreferenceColumns(columns)[i]) == PreferenceSuffix(PreferenceColumns(columns)[j])
    ensures var sfx := Suffixes(PreferenceColumns(columns));
            IdentifiedColumns(base, columns) ==
              Err("Duplicate normalized preference columns detected: " + Join(Duplicates(base, sfx)))
    ensures NewName(base, PreferenceColumns(columns)[j]) in Duplicates(base, Suffixes(PreferenceColumns(columns)))
  {
    var sfx := Suffixes(PreferenceColumns(columns));
    DuplicateListed(base, sfx, i, j);
  }

  /** `df.rename(columns=mapping)`: the names the mapping covers are replaced, the others kept. */
  function RenamedBy(columns: seq<string>, mapping: map<string, string>): (r: seq<string>)
    ensures |r| == |columns|
    ensures forall i :: 0 <= i < |columns| && columns[i] !in mapping ==> r[i] == columns[i]
    ensures forall i :: 0 <= i < |columns| && columns[i] in mapping ==> r[i] == mapping[columns[i]]
  {
    seq(|columns|, i requires 0 <= i < |columns| =>
      if columns[i] in mapping then mapping[columns[i]] else columns[i])
  }

  /** Renaming by a map that holds every preference column under its new name, and nothing else, is `Renamed`. */
  lemma RenamedByNormalized(base: string, columns: seq<string>, mapping: map<string, string>)
    requires forall c :: c in mapping ==> PreferenceSuffix(c).Some? && mapping[c] == NewName(base, c)
    requires forall c :: c in PreferenceColumns(columns) ==> c in mapping
    ensures RenamedBy(columns, mapping) == Renamed(base, columns)
  {
    var r, q := RenamedBy(columns, mapping), Renamed(base, columns);
    forall i | 0 <= i < |columns|
      ensures r[i] == q[i]
    {
      if PreferenceSuffix(columns[i]).Some? {
        assert columns[i] in PreferenceColumns(columns);
      }
    }
  }

  /**
    * Lines 49-75 as a loop over the preference columns, filling the map of
    * new names and the list of duplicates.
    */
  method IdentifyAndNormalizePreferences(columns: seq<string>, base: string) returns (r: Result<seq<string>>)
    ensures r == IdentifiedColumns(base, columns)
  {
    var prefs := PreferenceColumns(columns);
    if prefs == [] {
      return Err(NoPreferenceColumns);
    }
    var normalized, duplicates := NormalizeSuffixes(prefs, base);
    if duplicates != [] {
      return Err("Duplicate normalized preference columns detected: " + Join(duplicates));
    }
    RenamedByNormalized(base, columns, normalized);
    r := Ok(RenamedBy(columns, normalized));
  }

  /**
    * Lines 56-67: each preference column's new name goes into the map unless
    * an earlier column took it, in which case it is listed as a duplicate.
    */
  method NormalizeSuffixes(prefs: seq<string>, base: string) returns (normalized: map<string, string>, duplicates: seq<string>)
    requires Suffixed(prefs)
    ensures duplicates == Duplicates(base, Suffixes(prefs))
    ensures forall c :: c in normalized ==> PreferenceSuffix(c).Some? && normalized[c] == NewName(base, c)
    ensures duplicates == [] ==> forall c :: c in prefs ==> c in normalized
  {
    ghost var sfx, target := Suffixes(prefs), Targets(base, prefs);
    TargetsConsistent(prefs, base);
    normalized, duplicates := map[], [];
    for k := 0 to |prefs|
      invariant Progress(prefs, base, sfx, target, k, normalized, duplicates)
    {
      // `re.search(r'_(\d+)$', col)` cannot fail on a column selected by the same pattern
      var col := prefs[k];
      var newName := base + "_" + PreferenceSuffix(col).value;
      assert newName == base + "_" + sfx[k];
      if newName in normalized.Values {
        SkipTakenName(prefs, base, sfx, target, k, normalized, duplicates);
        duplicates := duplicates + [newName];
      } else {
        TakeFreeName(prefs, base, sfx, target, k, normalized, duplicates);
        normalized := normalized[col := newName];
      }
    }
    assert sfx[..|prefs|] == sfx;
  }

  /** The new name of every preference column. */
  function Targets(base: string, prefs: seq<string>): (t: map<string, string>)
    requires Suffixed(prefs)
    ensures forall c :: c in t <==> c in prefs
    ensures forall c :: c in t ==> PreferenceSuffix(c).Some? && t[c] == NewName(base, c)
  {
    map c | c in prefs :: NewName(base, c)
  }

  /** A map from every column to the new name its suffix gives it. */
  ghost predicate Consistent(prefs: seq<string>, base: string, sfx: seq<string>, target: map<string, string>) {
    && |sfx| == |prefs|
    && (forall c :: c in target <==> c in prefs)
    && (forall q :: 0 <= q < |prefs| ==> target[prefs[q]] == base + "_" + sfx[q])
  }

  lemma TargetsConsistent(prefs: seq<string>, base: string)
    requires Suffixed(prefs)
    ensures Consistent(prefs, base, Suffixes(prefs), Targets(base, prefs))
  {
    var sfx, target := Suffixes(prefs), Targets(base, prefs);
    forall q | 0 <= q < |prefs|
      ensures target[prefs[q]] == base + "_" + sfx[q]
    {
      assert prefs[q] in prefs;
    }
  }

  /** The loop's invariant after the first `k` preference columns. */
  ghost predicate Progress(prefs: seq<string>, base: string, sfx: seq<string>, target: map<string, string>, k: nat,
                           normalized: map<string, string>, duplicates: seq<string>)
  {
    && Consistent(prefs, base, sfx, target)
    && k <= |prefs|
    && duplicates == Duplicates(base, sfx[..k])
    && normalized.Values == NewNames(base, sfx[..k])
    && (forall c :: c in normalized ==> c in target && normalized[c] == target[c])
    && (duplicates == [] ==> forall q :: 0 <= q < k ==> prefs[q] in normalized)
  }

  /** A column whose new name is taken is listed as a duplicate and leaves the map alone. */
  lemma SkipTakenName(prefs: seq<string>, base: string, sfx: seq<string>, target: map<string, string>, k: nat,
                      normalized: map<string, string>, duplicates: seq<string>)
    requires Progress(prefs, base, sfx, target, k, normalized, duplicates) && k < |prefs|
    requires base + "_" + sfx[k] in normalized.Values
    ensures Progress(prefs, base, sfx, target, k + 1, normalized, duplicates + [base + "_" + sfx[k]])
  {
    DuplicatesSnoc(base, sfx, k);
    NewNamesSnoc(base, sfx, k);
  }

  /** A column whose new name is free enters the map under it. */
  lemma TakeFreeName(prefs: seq<string>, base: string, sfx: seq<string>, target: map<string, string>, k: nat,
                     normalized: map<string, string>, duplicates: seq<string>)
    requires Progress(prefs, base, sfx, target, k, normalized, duplicates) && k < |prefs|
    requires base + "_" + sfx[k] !in normalized.Values
    ensures Progress(prefs, base, sfx, target, k + 1, normalized[prefs[k] := base + "_" + sfx[k]], duplicates)
  {
    var col, name := prefs[k], base + "_" + sfx[k];
    var after := normalized[col := name];
    DuplicatesSnoc(base, sfx, k);
    NewNamesSnoc(base, sfx, k);
    MapAddValues(normalized, col, name);
    if duplicates == [] {
      forall q | 0 <= q < k + 1
        ensures prefs[q] in after
      {
        if q < k {
          assert prefs[q] in normalized;
        }
      }
    }
  }

  /** One more suffix adds its new name to the set. */
  lemma NewNamesSnoc(base: string, sfx: seq<string>, k: nat)
    requires k < |sfx|
    ensures NewNames(base, sfx[..k + 1]) == NewNames(base, sfx[..k]) + {base + "_" + sfx[k]}
  {
    assert forall q :: 0 <= q < k ==> sfx[..k + 1][q] == sfx[..k][q];
    assert sfx[..k + 1][k] == sfx[k];
  }

  /** One more suffix adds its new name to the duplicates when an earlier one took it. */
  lemma DuplicatesSnoc(base: string, sfx: seq<string>, k: nat)
    requires k < |sfx|
    ensures var name := base + "_" + sfx[k];
      Duplicates(base, sfx[..k + 1]) ==
        Duplicates(base, sfx[..k]) + (if name in NewNames(base, sfx[..k]) then [name] else [])
  {
    assert sfx[..k + 1][..k] == sfx[..k];
  }

  /** A new key adds its value to the values of a map. */
  lemma MapAddValues(m: map<string, string>, key: string, v: string)
    requires key !in m
    ensures m[key := v].Values == m.Values + {v}
  {
    forall x | x in m.Values
      ensures x in m[key := v].Values
    {
      var c :| c in m && m[c] == x;
      assert m[key := v][c] == x;
    }
    assert m[key := v][key] == v;
  }
}
