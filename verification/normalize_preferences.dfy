/**
  * `normalize_preferences` of jobmatch/preprocessing.py: the free-text
  * preference cleaner. Each regular expression it applies is modelled by a
  * scanner that finds, at each position, the match Python's leftmost-greedy
  * engine finds there; for these patterns backtracking never changes the
  * match, so each scanner is deterministic.
  */
module PreferenceText {
  import opened Text

  /** `s.replace('//', ';')`: non-overlapping, left to right. */
  function ReplaceDoubleSlash(s: string): (r: string)
    ensures |r| <= |s|
  {
    if |s| >= 2 && s[0] == '/' && s[1] == '/' then ";" + ReplaceDoubleSlash(s[2..])
    else if s == [] then []
    else [s[0]] + ReplaceDoubleSlash(s[1..])
  }

  /** The length of the leading run of `\s` characters. */
  function SpaceRun(s: string): (n: nat)
    ensures n <= |s|
    ensures forall i :: 0 <= i < n ==> IsSpace(s[i])
    ensures n == |s| || !IsSpace(s[n])
  {
    if s != [] && IsSpace(s[0]) then 1 + SpaceRun(s[1..]) else 0
  }

  /** The length of the leading run of `\d` characters. */
  function DigitRun(s: string): (n: nat)
    ensures n <= |s|
    ensures forall i :: 0 <= i < n ==> IsDigit(s[i])
    ensures n == |s| || !IsDigit(s[n])
  {
    if s != [] && IsDigit(s[0]) then 1 + DigitRun(s[1..]) else 0
  }

  /** `(c)?` under IGNORECASE: one character if it is the letter `c`. */
  function OptLetter(s: string, c: char): (n: nat)
    ensures n <= 1 && n <= |s|
  {
    if s != [] && SameLetter(s[0], c) then 1 else 0
  }

  /** The patterns `normalize_preferences` substitutes. */
  datatype Pattern =
    | PolSci       // pol(i)?\s*sc(i)?\s*   -> "PS"
    | SocSci       // soc\s*sc(i)?\s*       -> "SocSci"
    | Fas          // fas\s?                -> "FAS"
    | ParenNumber  // \s*\(\d+\)\s*         -> ""

  function Replacement(p: Pattern): string {
    match p
    case PolSci => "PS"
    case SocSci => "SocSci"
    case Fas => "FAS"
    case ParenNumber => ""
  }

  /** After a `sc` at `i`: `sc(i)?\s*`, or 0 when `sc` is not there. */
  function ScTail(s: string, i: nat): (n: nat)
    requires i <= |s|
    ensures n == 0 || i + 2 <= n <= |s|
  {
    if StartsWithIgnoreCase(s[i..], "sc") then
      var j := i + 2 + OptLetter(s[i + 2..], 'i');
      j + SpaceRun(s[j..])
    else 0
  }

  /** The length of the match of `p` at the start of `s`; 0 when there is none (no pattern matches the empty string). */
  function MatchLength(p: Pattern, s: string): (n: nat)
    ensures n <= |s|
  {
    match p
    case PolSci =>
      if StartsWithIgnoreCase(s, "pol") then
        var i := 3 + OptLetter(s[3..], 'i');
        ScTail(s, i + SpaceRun(s[i..]))
      else 0
    case SocSci =>
      if StartsWithIgnoreCase(s, "soc") then ScTail(s, 3 + SpaceRun(s[3..])) else 0
    case Fas =>
      if StartsWithIgnoreCase(s, "fas") then 3 + (if |s| > 3 && IsSpace(s[3]) then 1 else 0) else 0
    case ParenNumber =>
      var i := SpaceRun(s);
      if i < |s| && s[i] == '(' then
        var d := DigitRun(s[i + 1..]);
        var j := i + 1 + d;
        if d > 0 && j < |s| && s[j] == ')' then j + 1 + SpaceRun(s[j + 1..]) else 0
      else 0
  }

  /** `re.sub(p, Replacement(p), s)`: scan left to right, replacing each match and resuming after it. */
  function Sub(p: Pattern, s: string): (r: string)
    decreases |s|
  {
    if s == [] then []
    else
      var n := MatchLength(p, s);
      if n > 0 then Replacement(p) + Sub(p, s[n..]) else [s[0]] + Sub(p, s[1..])
  }

  /** A character `[;,]` splits on. */
  predicate IsSeparator(c: char) { c == ';' || c == ',' }

  /** `re.split(r"[;,]", s)`: the pieces between separators, empty ones included. */
  function SplitOnSeparators(s: string): (r: seq<string>)
    ensures |r| >= 1
    ensures forall k, i :: 0 <= k < |r| && 0 <= i < |r[k]| ==> !IsSeparator(r[k][i])
  {
    if s == [] then [""]
    else
      var rest := SplitOnSeparators(s[1..]);
      if IsSeparator(s[0]) then [""] + rest
      else [[s[0]] + rest[0]] + rest[1..]
  }

  /** A character `[^a-zA-Z0-9\s?:/-]` does not match, and so survives the junk removal. */
  predicate KeptChar(c: char) {
    IsAsciiUpper(c) || IsAsciiLower(c) || IsDigit(c) || IsSpace(c) || c == '?' || c == ':' || c == '/' || c == '-'
  }

  /** `re.sub(r"[^a-zA-Z0-9\s?:/-]", "", s)`. */
  function RemoveJunk(s: string): (r: string)
    ensures forall i :: 0 <= i < |r| ==> KeptChar(r[i])
  {
    if s == [] then []
    else (if KeptChar(s[0]) then [s[0]] else []) + RemoveJunk(s[1..])
  }

  /** Two spaces never stand side by side. */
  predicate SingleSpaced(s: string) {
    forall i :: 0 <= i < |s| - 1 ==> !(s[i] == ' ' && s[i + 1] == ' ')
  }

  /** A character a cleaned preference may hold: `[a-zA-Z0-9 ?:/-]`. */
  predicate CleanChar(c: char) {
    IsAsciiUpper(c) || IsAsciiLower(c) || IsDigit(c) || c == ' ' || c == '?' || c == ':' || c == '/' || c == '-'
  }

  predicate AllClean(s: string) {
    forall i :: 0 <= i < |s| ==> CleanChar(s[i])
  }

  /** `re.sub(r"\s+", " ", s)`: each whitespace run becomes one plain space. */
  function CollapseSpaces(s: string): (r: string)
    ensures (forall i :: 0 <= i < |s| ==> KeptChar(s[i])) ==> AllClean(r)
    ensures SingleSpaced(r)
    ensures s == [] <==> r == []
    ensures s != [] ==> (IsSpace(s[0]) <==> r[0] == ' ')
  {
    if s == [] then []
    else if IsSpace(s[0]) then
      var n := SpaceRun(s);
      " " + CollapseSpaces(s[n..])
    else [s[0]] + CollapseSpaces(s[1..])
  }

  /** An infix of a single-spaced, clean string is single-spaced and clean. */
  lemma InfixKeepsShape(s: string, d: nat, e: nat)
    requires d <= e <= |s|
    ensures SingleSpaced(s) ==> SingleSpaced(s[d..e])
    ensures AllClean(s) ==> AllClean(s[d..e])
  {
    assert forall i :: 0 <= i < e - d ==> s[d..e][i] == s[d + i];
  }

  /** Stripping takes an infix, so it keeps a string single-spaced and clean. */
  lemma StripKeepsShape(s: string)
    ensures SingleSpaced(s) ==> SingleSpaced(Strip(s))
    ensures AllClean(s) ==> AllClean(Strip(s))
  {
    var d := LeadingSpaces(s);
    InfixKeepsShape(s, d, d + |Strip(s)|);
  }

  /** The shape of every cleaned piece: clean characters, single spaces, nothing to strip. */
  predicate WellFormed(p: string) {
    && AllClean(p)
    && SingleSpaced(p)
    && (p == [] || (p[0] != ' ' && p[|p| - 1] != ' '))
  }

  /** The per-piece body of the loop: strip and drop `(n)`, strip and drop junk, collapse spaces and strip. */
  function CleanPiece(piece: string): string {
    Strip(CollapseSpaces(RemoveJunk(Strip(Sub(ParenNumber, Strip(piece))))))
  }

  /** Every cleaned piece is well formed. */
  lemma CleanPieceWellFormed(piece: string)
    ensures WellFormed(CleanPiece(piece))
  {
    StripKeepsShape(CollapseSpaces(RemoveJunk(Strip(Sub(ParenNumber, Strip(piece))))));
  }

  /** `re.match(r"^(PS|SocSci|FAS|\d)", pref, flags=re.IGNORECASE)`. */
  predicate HasCoursePrefix(p: string) {
    || StartsWithIgnoreCase(p, "PS")
    || StartsWithIgnoreCase(p, "SocSci")
    || StartsWithIgnoreCase(p, "FAS")
    || (p != [] && IsDigit(p[0]))
  }

  /** A preference the normaliser may return. */
  predicate Kept(p: string) {
    WellFormed(p) && HasCoursePrefix(p)
  }

  /** Each piece cleaned, in order. */
  function CleanPieces(pieces: seq<string>): (r: seq<string>)
    ensures |r| == |pieces|
  {
    seq(|pieces|, i requires 0 <= i < |pieces| => CleanPiece(pieces[i]))
  }

  /** The cleaned pieces that pass the prefix filter, in order. */
  function KeepCourses(cleaned: seq<string>): (r: seq<string>)
    ensures |r| <= |cleaned|
  {
    if cleaned == [] then []
    else
      var last := cleaned[|cleaned| - 1];
      KeepCourses(cleaned[..|cleaned| - 1]) + (if HasCoursePrefix(last) then [last] else [])
  }

  /** What the loop over the split pieces collects. */
  function KeptPieces(pieces: seq<string>): seq<string> {
    KeepCourses(CleanPieces(pieces))
  }

  /** The filter keeps only pieces that start like a course, so well-formed pieces stay well formed. */
  lemma {:induction false} KeepCoursesKept(cleaned: seq<string>)
    requires forall i :: 0 <= i < |cleaned| ==> WellFormed(cleaned[i])
    ensures forall k :: 0 <= k < |KeepCourses(cleaned)| ==> Kept(KeepCourses(cleaned)[k])
  {
    if cleaned != [] {
      KeepCoursesKept(cleaned[..|cleaned| - 1]);
    }
  }

  /** Every kept piece is well formed and starts like a course. */
  lemma KeptPiecesKept(pieces: seq<string>)
    ensures forall k :: 0 <= k < |KeptPieces(pieces)| ==> Kept(KeptPieces(pieces)[k])
  {
    var cleaned := CleanPieces(pieces);
    forall i | 0 <= i < |cleaned| ensures WellFormed(cleaned[i]) {
      CleanPieceWellFormed(pieces[i]);
    }
    KeepCoursesKept(cleaned);
  }

  lemma KeepCoursesSnoc(cleaned: seq<string>, k: nat)
    requires k < |cleaned|
    ensures KeepCourses(cleaned[..k + 1])
         == KeepCourses(cleaned[..k]) + (if HasCoursePrefix(cleaned[k]) then [cleaned[k]] else [])
  {
    assert cleaned[..k + 1][..k] == cleaned[..k];
  }

  /** The string after the divider and course-identifier rewrites, before the split. */
  function Canonical(s: string): string {
    Sub(Fas, Sub(SocSci, Sub(PolSci, ReplaceDoubleSlash(s))))
  }

  /** What `normalize_preferences` returns. */
  function NormalizedPreferences(s: string): seq<string> {
    KeptPieces(SplitOnSeparators(Canonical(s)))
  }

  /** The loop over the split pieces: clean each one and keep it when it starts like a course. */
  method KeepCleanPieces(preferencesList: seq<string>) returns (processed: seq<string>)
    ensures processed == KeptPieces(preferencesList)
  {
    ghost var cleaned := CleanPieces(preferencesList);
    processed := [];
    var k := 0;
    while k < |preferencesList|
      invariant 0 <= k <= |preferencesList|
      invariant processed == KeepCourses(cleaned[..k])
    {
      var pref := CleanPiece(preferencesList[k]);
      KeepCoursesSnoc(cleaned, k);
      if HasCoursePrefix(pref) {
        processed := processed + [pref];
      }
      k := k + 1;
    }
    assert cleaned[..k] == cleaned;
  }

  /**
    * `normalize_preferences(preference_string)`: every returned item starts
    * with PS, SocSci, FAS or a digit (ignoring case), holds only
    * `[a-zA-Z0-9 ?:/-]` (so no `;` or `,`), and has single inner spaces and
    * none at either end.
    */
  method NormalizePreferences(preferenceString: string) returns (processed: seq<string>)
    ensures processed == NormalizedPreferences(preferenceString)
    ensures forall k :: 0 <= k < |processed| ==> Kept(processed[k])
  {
    var preferences := ReplaceDoubleSlash(preferenceString);
    preferences := Sub(PolSci, preferences);
    preferences := Sub(SocSci, preferences);
    preferences := Sub(Fas, preferences);
    var preferencesList := SplitOnSeparators(preferences);
    processed := KeepCleanPieces(preferencesList);
    KeptPiecesKept(preferencesList);
  }
}
