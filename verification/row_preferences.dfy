/**
  * The preference extraction of `load_instructors` (gui/load_data.py): an
  * instructor row, a map from column name to cell, yields the string cells
  * of `pref_1`, `pref_2`, ... in order.
  */
module RowPreferences {
  import opened Wrappers
  import opened Text

  /** A cell of a row: a string, or anything else (a number, NaN). */
  datatype Cell = Str(s: string) | Other

  /** `f'pref_{k}'`. */
  function PrefKey(k: nat): string {
    "pref_" + NatToString(k)
  }

  /** The string values of `pref_1` to `pref_n` present in the row, in order. */
  function PrefsUpTo(row: map<string, Cell>, n: nat): seq<string> {
    if n == 0 then []
    else
      var key := PrefKey(n);
      PrefsUpTo(row, n - 1) + if key in row && row[key].Str? then [row[key].s] else []
  }

  /**
    * What is extracted is exactly the string cells among `pref_1` to
    * `pref_n`: each value comes from one of them and each of them is there.
    */
  lemma {:induction false} PrefsUpToMembers(row: map<string, Cell>, n: nat)
    ensures |PrefsUpTo(row, n)| <= n
    ensures forall x :: x in PrefsUpTo(row, n) ==>
      exists k :: 1 <= k <= n && PrefKey(k) in row && row[PrefKey(k)] == Str(x)
    ensures forall k :: 1 <= k <= n && PrefKey(k) in row && row[PrefKey(k)].Str? ==> row[PrefKey(k)].s in PrefsUpTo(row, n)
  {
    if n > 0 {
      PrefsUpToMembers(row, n - 1);
    }
  }

  /** Line 188: the preferences of an instructor row, looking at `pref_1` to `pref_len(row)`. */
  function ExtractPreferences(row: map<string, Cell>): seq<string> {
    PrefsUpTo(row, |row|)
  }

  /** With string cells `pref_1` to `pref_n`, those `n` values come first, in order. */
  lemma {:induction false} PrefsUpToFull(row: map<string, Cell>, n: nat)
    requires forall k :: 1 <= k <= n ==> PrefKey(k) in row && row[PrefKey(k)].Str?
    ensures |PrefsUpTo(row, n)| == n
    ensures forall i :: 0 <= i < n ==> PrefsUpTo(row, n)[i] == row[PrefKey(i + 1)].s
  {
    if n > 0 {
      PrefsUpToFull(row, n - 1);
      var key := PrefKey(n);
      assert PrefsUpTo(row, n) == PrefsUpTo(row, n - 1) + [row[key].s];
    }
  }

  /** Past the last string `pref_` cell nothing more is added. */
  lemma {:induction false} PrefsUpToStops(row: map<string, Cell>, n: nat, m: nat)
    requires n <= m
    requires forall k :: n < k <= m && PrefKey(k) in row ==> !row[PrefKey(k)].Str?
    ensures PrefsUpTo(row, m) == PrefsUpTo(row, n)
  {
    if n < m {
      PrefsUpToStops(row, n, m - 1);
    }
  }

  /**
    * A row whose `pref_1` to `pref_n` hold strings, and no later `pref_` cell
    * a string, yields exactly those `n` preferences in order.
    */
  lemma ExtractedInOrder(row: map<string, Cell>, n: nat)
    requires n <= |row|
    requires forall k :: 1 <= k <= n ==> PrefKey(k) in row && row[PrefKey(k)].Str?
    requires forall k :: n < k <= |row| && PrefKey(k) in row ==> !row[PrefKey(k)].Str?
    ensures |ExtractPreferences(row)| == n
    ensures forall i :: 0 <= i < n ==> ExtractPreferences(row)[i] == row[PrefKey(i + 1)].s
  {
    PrefsUpToStops(row, n, |row|);
    PrefsUpToFull(row, n);
  }
}
