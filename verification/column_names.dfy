/**
  * `normalize_column_names` (gui/load_data.py): spreadsheet column names are
  * stripped, lowercased, have whitespace runs turned into `_` and keep only
  * `[a-z0-9_]`; the frame's names are replaced in place. Also the list
  * helpers (`', '.join`, list filters) the loading code shares.
  */
module ColumnNames {
  import opened Wrappers
  import opened Text

  /** `[a-z0-9_]`, the characters a normalised column name keeps. */
  predicate ColumnChar(c: char) {
    IsAsciiLower(c) || IsDigit(c) || c == '_'
  }

  predicate ColumnName(s: string) {
    forall i :: 0 <= i < |s| ==> ColumnChar(s[i])
  }

  /**
    * `re.sub(r'\s+', '_', s)`: each maximal run of whitespace becomes a single
    * underscore.
    */
  function Underscored(s: string): string
    decreases |s|
  {
    if s == [] then []
    else if IsSpace(s[0]) then "_" + Underscored(StripLeft(s[1..]))
    else [s[0]] + Underscored(s[1..])
  }

  /** No whitespace is left after the substitution. */
  lemma {:induction false} UnderscoredHasNoSpace(s: string)
    ensures forall i :: 0 <= i < |Underscored(s)| ==> !IsSpace(Underscored(s)[i])
    decreases |s|
  {
    if s != [] {
      if IsSpace(s[0]) {
        UnderscoredHasNoSpace(StripLeft(s[1..]));
      } else {
        UnderscoredHasNoSpace(s[1..]);
      }
    }
  }

  /** Text without whitespace is left as it is. */
  lemma {:induction false} UnderscoredNoSpace(s: string)
    requires forall i :: 0 <= i < |s| ==> !IsSpace(s[i])
    ensures Underscored(s) == s
  {
    if s != [] {
      assert !IsSpace(s[0]);
      UnderscoredNoSpace(s[1..]);
    }
  }

  /** A whitespace run between text that does not touch it is replaced by exactly one underscore. */
  lemma {:induction false} UnderscoredRun(a: string, run: string, b: string)
    requires run != [] && forall i :: 0 <= i < |run| ==> IsSpace(run[i])
    requires a == [] || !IsSpace(a[|a| - 1])
    requires b == [] || !IsSpace(b[0])
    ensures Underscored(a + run + b) == Underscored(a) + "_" + Underscored(b)
    decreases |a|, 1
  {
    if a == [] {
      var s := a + run + b;
      assert s == run + b && s[1..] == run[1..] + b;
      StripLeftRun(run[1..], b);
      assert Underscored(s) == "_" + Underscored(b);
      assert Underscored(a) + "_" == "_";
    } else if IsSpace(a[0]) {
      UnderscoredRunAfterSpace(a, run, b);
    } else {
      UnderscoredRunAfterChar(a, run, b);
    }
  }

  /** `UnderscoredRun` when `a` starts with whitespace. */
  lemma {:induction false} UnderscoredRunAfterSpace(a: string, run: string, b: string)
    requires run != [] && forall i :: 0 <= i < |run| ==> IsSpace(run[i])
    requires a != [] && IsSpace(a[0]) && !IsSpace(a[|a| - 1])
    requires b == [] || !IsSpace(b[0])
    ensures Underscored(a + run + b) == Underscored(a) + "_" + Underscored(b)
    decreases |a|, 0
  {
    var c := StripLeft(a[1..]);
    SkipLeadingRun(a, run + b);
    SeqAssoc(a, run, b);
    SeqAssoc(c, run, b);
    UnderscoredRun(c, run, b);
    var uc, ub := Underscored(c), Underscored(b);
    calc {
      "_" + (uc + "_" + ub);
      { SeqAssoc("_", uc + "_", ub); }
      "_" + (uc + "_") + ub;
      { SeqAssoc("_", uc, "_"); }
      "_" + uc + "_" + ub;
    }
  }

  /**
    * Text starting with whitespace and ending in a non-space, whatever follows:
    * the run at its head becomes one underscore, and what comes after the run
    * is what follows it in `a` and then the rest.
    */
  lemma SkipLeadingRun(a: string, rest: string)
    requires a != [] && IsSpace(a[0]) && !IsSpace(a[|a| - 1])
    ensures StripLeft(a[1..]) != [] && !IsSpace(StripLeft(a[1..])[|StripLeft(a[1..])| - 1])
    ensures Underscored(a + rest) == "_" + Underscored(StripLeft(a[1..]) + rest)
    ensures Underscored(a) == "_" + Underscored(StripLeft(a[1..]))
  {
    assert a + rest == [a[0]] + (a[1..] + rest);
    UnderscoredSpace(a[0], a[1..] + rest);
    StripLeftAppend(a[1..], rest);
    StripLeftLast(a[1..]);
  }

  /** `UnderscoredRun` when `a` starts with a non-space. */
  lemma {:induction false} UnderscoredRunAfterChar(a: string, run: string, b: string)
    requires run != [] && forall i :: 0 <= i < |run| ==> IsSpace(run[i])
    requires a != [] && !IsSpace(a[0]) && !IsSpace(a[|a| - 1])
    requires b == [] || !IsSpace(b[0])
    ensures Underscored(a + run + b) == Underscored(a) + "_" + Underscored(b)
    decreases |a|, 0
  {
    var t := a[1..] + run + b;
    assert a + run + b == [a[0]] + t;
    assert a == [a[0]] + a[1..];
    UnderscoredCons(a[0], t);
    UnderscoredCons(a[0], a[1..]);
    UnderscoredRun(a[1..], run, b);
    var u1, ub := Underscored(a[1..]), Underscored(b);
    calc {
      [a[0]] + (u1 + "_" + ub);
      { SeqAssoc([a[0]], u1 + "_", ub); }
      [a[0]] + (u1 + "_") + ub;
      { SeqAssoc([a[0]], u1, "_"); }
      [a[0]] + u1 + "_" + ub;
    }
  }

  /** A non-space is copied. */
  lemma UnderscoredCons(c: char, t: string)
    requires !IsSpace(c)
    ensures Underscored([c] + t) == [c] + Underscored(t)
  {
    assert ([c] + t)[0] == c && ([c] + t)[1..] == t;
  }

  /** A space starts a run that becomes one underscore. */
  lemma UnderscoredSpace(c: char, t: string)
    requires IsSpace(c)
    ensures Underscored([c] + t) == "_" + Underscored(StripLeft(t))
  {
    assert ([c] + t)[0] == c && ([c] + t)[1..] == t;
  }

  lemma SeqAssoc<T>(x: seq<T>, y: seq<T>, z: seq<T>)
    ensures x + (y + z) == x + y + z
  {
  }

  /** Leading whitespace is dropped before text that ends in a non-space, whatever follows. */
  lemma {:induction false} StripLeftAppend(x: string, y: string)
    requires x != [] && !IsSpace(x[|x| - 1])
    ensures StripLeft(x + y) == StripLeft(x) + y
  {
    if IsSpace(x[0]) {
      assert |x| > 1;
      assert (x + y)[1..] == x[1..] + y;
      StripLeftAppend(x[1..], y);
    }
  }

  /** What is left of text ending in a non-space keeps that last character. */
  lemma StripLeftLast(x: string)
    requires x != [] && !IsSpace(x[|x| - 1])
    ensures StripLeft(x) != [] && StripLeft(x)[|StripLeft(x)| - 1] == x[|x| - 1]
  {
  }

  /** Dropping leading whitespace off a whitespace run followed by text leaves the text. */
  lemma {:induction false} StripLeftRun(run: string, b: string)
    requires forall i :: 0 <= i < |run| ==> IsSpace(run[i])
    requires b == [] || !IsSpace(b[0])
    ensures StripLeft(run + b) == b
  {
    if run != [] {
      assert (run + b)[1..] == run[1..] + b;
      StripLeftRun(run[1..], b);
    } else {
      assert run + b == b;
    }
  }

  /** `re.sub(r'[^a-z0-9_]', '', s)`: only the characters of `[a-z0-9_]` are kept, in order. */
  function KeepColumnChars(s: string): (r: string)
    ensures |r| <= |s| && ColumnName(r)
    ensures ColumnName(s) ==> r == s
  {
    if s == [] then []
    else if ColumnChar(s[0]) then [s[0]] + KeepColumnChars(s[1..])
    else KeepColumnChars(s[1..])
  }

  /** Filtering works piece by piece. */
  lemma {:induction false} KeepColumnCharsAppend(a: string, b: string)
    ensures KeepColumnChars(a + b) == KeepColumnChars(a) + KeepColumnChars(b)
  {
    if a == [] {
      assert a + b == b;
    } else {
      assert (a + b)[1..] == a[1..] + b;
      KeepColumnCharsAppend(a[1..], b);
    }
  }

  /**
    * Lines 21-26, one name: stripped, lowercased, whitespace runs turned into
    * `_`, everything outside `[a-z0-9_]` dropped. The result is always a
    * column name, and the names it leaves unchanged are exactly the column
    * names, so normalising twice is normalising once.
    */
  function NormalizeColumnName(s: string): (r: string)
    ensures ColumnName(r)
    ensures r == s <==> ColumnName(s)
  {
    if ColumnName(s) then
      ColumnNameFixed(s);
      KeepColumnChars(Underscored(Lower(Strip(s))))
    else KeepColumnChars(Underscored(Lower(Strip(s))))
  }

  /** No step of the rewrite changes a name that is already a column name. */
  lemma ColumnNameFixed(s: string)
    requires ColumnName(s)
    ensures KeepColumnChars(Underscored(Lower(Strip(s)))) == s
  {
    assert forall i :: 0 <= i < |s| ==> !IsSpace(s[i]) by {
      forall i | 0 <= i < |s|
        ensures !IsSpace(s[i])
      {
        ColumnCharNotSpace(s[i]);
      }
    }
    assert Strip(s) == s;
    assert Lower(s) == s;
    UnderscoredNoSpace(s);
  }

  /** A name with no whitespace at either end is left as it is by `strip()`. */
  lemma TrimmedAlready(s: string)
    requires s != [] && !IsSpace(s[0]) && !IsSpace(s[|s| - 1])
    ensures Strip(s) == s
  {
    assert StripLeft(s) == s;
  }

  lemma ColumnCharNotSpace(c: char)
    requires ColumnChar(c)
    ensures !IsSpace(c)
  {
  }

  /** Whitespace around a name does not change what it normalises to. */
  lemma NormalizeIgnoresPadding(s: string)
    ensures NormalizeColumnName(Strip(s)) == NormalizeColumnName(s)
  {
    StripIdempotent(s);
  }

  lemma StripIdempotent(s: string)
    ensures Strip(Strip(s)) == Strip(s)
  {
    if Strip(s) != [] {
      TrimmedAlready(Strip(s));
    }
  }

  /** Every column name normalised, in order. */
  function NormalizedNames(columns: seq<string>): (r: seq<string>)
    ensures |r| == |columns|
    ensures forall i :: 0 <= i < |columns| ==> r[i] == NormalizeColumnName(columns[i])
  {
    seq(|columns|, i requires 0 <= i < |columns| => NormalizeColumnName(columns[i]))
  }

  /** A data frame, as far as its column names go. */
  class Frame {
    var columns: seq<string>

    constructor (columns: seq<string>)
      ensures this.columns == columns
    {
      this.columns := columns;
    }
  }

  /**
    * `normalize_column_names(df)`: the caller's frame gets the normalised
    * names in place and is returned. The duplicate check compares the number
    * of columns before and after, which a rewrite of each name cannot
    * change, so it never raises, even when two names normalise alike.
    */
  method NormalizeColumnNames(df: Frame) returns (r: Result<Frame>)
    modifies df
    ensures df.columns == NormalizedNames(old(df.columns))
    ensures r == Ok(df)
  {
    var before := df.columns;
    df.columns := NormalizedNames(df.columns);
    if |df.columns| != |before| {
      return Err("Duplicate columns detected. Please check naming patterns");
    }
    r := Ok(df);
  }

  /**
    * A name that is not already a column name and its normalised form are two
    * different columns that come out under one name, and the check lets them
    * through.
    */
  lemma NormalizedNamesCollide(s: string)
    requires !ColumnName(s)
    ensures s != NormalizeColumnName(s)
    ensures NormalizedNames([s, NormalizeColumnName(s)])[0] == NormalizedNames([s, NormalizeColumnName(s)])[1]
  {
  }

  /** `', '.join(names)`. */
  function Join(names: seq<string>): string {
    if names == [] then ""
    else if |names| == 1 then names[0]
    else names[0] + ", " + Join(names[1..])
  }

  /** The elements of `s` that `keep` accepts, in order. */
  function Filter(s: seq<string>, keep: string -> bool): (r: seq<string>)
    ensures |r| <= |s|
    ensures forall k :: 0 <= k < |r| ==> r[k] in s && keep(r[k])
    ensures forall i :: 0 <= i < |s| && keep(s[i]) ==> s[i] in r
  {
    if s == [] then []
    else
      var rest := Filter(s[1..], keep);
      assert forall k :: 0 <= k < |rest| ==> rest[k] in s;
      if keep(s[0]) then [s[0]] + rest else rest
  }

}
