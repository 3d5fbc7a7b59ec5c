/**
  * The preference-ranking table of jobmatch/preprocessing.py
  * (`create_preference_tuples`) and the 1-based match ranks of
  * `print_matching_results`.
  *
  * The table of an instructor lists every listed course at its 1-based
  * position and every other catalog course at rank `len(courses)`, sorted by
  * `(rank, course)`. Python compares strings by code point, which is the
  * order `StrLe` defines on Dafny strings.
  */
module Ranking {
  import opened Wrappers
  import opened Entities

  /** The `Preference(course, rank)` named tuple. */
  datatype Preference = Preference(course: string, rank: nat)

  /** Python's `<=` on `str`: lexicographic by code point. */
  predicate StrLe(a: string, b: string) {
    a == [] || (b != [] && (a[0] < b[0] || (a[0] == b[0] && StrLe(a[1..], b[1..]))))
  }

  lemma {:induction false} StrLeTotal(a: string, b: string)
    ensures StrLe(a, b) || StrLe(b, a)
  {
    if a != [] && b != [] && a[0] == b[0] {
      StrLeTotal(a[1..], b[1..]);
    }
  }

  lemma {:induction false} StrLeAntisymmetric(a: string, b: string)
    requires StrLe(a, b) && StrLe(b, a)
    ensures a == b
  {
    if a != [] && b != [] {
      StrLeAntisymmetric(a[1..], b[1..]);
      assert a == [a[0]] + a[1..] && b == [b[0]] + b[1..];
    }
  }

  lemma {:induction false} StrLeTransitive(a: string, b: string, c: string)
    requires StrLe(a, b) && StrLe(b, c)
    ensures StrLe(a, c)
  {
    if a != [] && b != [] && c != [] && a[0] == b[0] == c[0] {
      StrLeTransitive(a[1..], b[1..], c[1..]);
    }
  }

  /** The sort key `(pref.rank, pref.course)` compared as a Python tuple. */
  predicate PrefLe(p: Preference, q: Preference) {
    p.rank < q.rank || (p.rank == q.rank && StrLe(p.course, q.course))
  }

  lemma PrefLeTotal(p: Preference, q: Preference)
    ensures PrefLe(p, q) || PrefLe(q, p)
  {
    StrLeTotal(p.course, q.course);
  }

  lemma PrefLeAntisymmetric(p: Preference, q: Preference)
    requires PrefLe(p, q) && PrefLe(q, p)
    ensures p == q
  {
    StrLeAntisymmetric(p.course, q.course);
  }

  lemma PrefLeTransitive(p: Preference, q: Preference, r: Preference)
    requires PrefLe(p, q) && PrefLe(q, r)
    ensures PrefLe(p, r)
  {
    if p.rank == q.rank == r.rank {
      StrLeTransitive(p.course, q.course, r.course);
    }
  }

  predicate Sorted(s: seq<Preference>) {
    forall i, j :: 0 <= i < j < |s| ==> PrefLe(s[i], s[j])
  }

  /** Places `p` into `s` before the first entry it does not follow. */
  function Insert(p: Preference, s: seq<Preference>): (r: seq<Preference>)
    ensures multiset(r) == multiset(s) + multiset{p}
  {
    if s == [] then [p]
    else if PrefLe(p, s[0]) then [p] + s
    else
      assert s == [s[0]] + s[1..];
      [s[0]] + Insert(p, s[1..])
  }

  /** An entry below every entry of a sorted sequence may go in front of it. */
  lemma ConsSorted(x: Preference, s: seq<Preference>)
    requires Sorted(s)
    requires forall j :: 0 <= j < |s| ==> PrefLe(x, s[j])
    ensures Sorted([x] + s)
  {
    var r := [x] + s;
    forall i, j | 0 <= i < j < |r| ensures PrefLe(r[i], r[j]) {
      assert r[j] == s[j - 1];
      if i > 0 { assert r[i] == s[i - 1]; }
    }
  }

  /** An entry of a sorted sequence that precedes `p` precedes all of `Insert(p, rest)`. */
  lemma InsertBounded(x: Preference, p: Preference, s: seq<Preference>)
    requires forall j :: 0 <= j < |s| ==> PrefLe(x, s[j])
    requires PrefLe(x, p)
    ensures forall j :: 0 <= j < |Insert(p, s)| ==> PrefLe(x, Insert(p, s)[j])
  {
    var r := Insert(p, s);
    forall j | 0 <= j < |r| ensures PrefLe(x, r[j]) {
      assert r[j] in multiset(r);
      if r[j] != p {
        assert r[j] in multiset(s);
        var k :| 0 <= k < |s| && s[k] == r[j];
      }
    }
  }

  /** Inserting into a sorted sequence keeps it sorted. */
  lemma {:induction false} InsertSorted(p: Preference, s: seq<Preference>)
    requires Sorted(s)
    ensures Sorted(Insert(p, s))
  {
    if s == [] {
    } else if PrefLe(p, s[0]) {
      forall j | 0 <= j < |s| ensures PrefLe(p, s[j]) {
        if j > 0 { PrefLeTransitive(p, s[0], s[j]); }
      }
      ConsSorted(p, s);
    } else {
      InsertSorted(p, s[1..]);
      PrefLeTotal(p, s[0]);
      InsertBounded(s[0], p, s[1..]);
      ConsSorted(s[0], Insert(p, s[1..]));
    }
  }

  /** `list.sort(key=lambda pref: (pref.rank, pref.course))`: a sorted permutation. */
  function SortPreferences(s: seq<Preference>): (r: seq<Preference>)
    ensures Sorted(r)
    ensures multiset(r) == multiset(s)
  {
    if s == [] then []
    else
      assert s == [s[0]] + s[1..];
      var sorted := SortPreferences(s[1..]);
      InsertSorted(s[0], sorted);
      Insert(s[0], sorted)
  }

  /** Two sorted sequences holding the same entries start with the same, least, entry. */
  lemma SortedSameHead(a: seq<Preference>, b: seq<Preference>)
    requires Sorted(a) && Sorted(b) && a != []
    requires multiset(a) == multiset(b)
    ensures b != [] && a[0] == b[0]
  {
    assert a[0] in multiset(b);
    var j :| 0 <= j < |b| && b[j] == a[0];
    assert b[0] in multiset(a);
    var i :| 0 <= i < |a| && a[i] == b[0];
    assert PrefLe(a[0], a[i]) by {
      if i == 0 { PrefLeTotal(a[0], a[0]); }
    }
    assert PrefLe(b[0], b[j]) by {
      if j == 0 { PrefLeTotal(b[0], b[0]); }
    }
    PrefLeAntisymmetric(a[0], b[0]);
  }

  /** A sorted sequence is fixed by its multiset: the key order is total and antisymmetric. */
  lemma {:induction false} SortedUnique(a: seq<Preference>, b: seq<Preference>)
    requires Sorted(a) && Sorted(b)
    requires multiset(a) == multiset(b)
    ensures a == b
  {
    if a != [] {
      SortedSameHead(a, b);
      assert a == [a[0]] + a[1..] && b == [b[0]] + b[1..];
      assert multiset(a[1..]) == multiset(a) - multiset{a[0]};
      assert multiset(b[1..]) == multiset(b) - multiset{b[0]};
      SortedUnique(a[1..], b[1..]);
    }
  }

  /** The listed courses, each at its 1-based position. */
  function ListedEntries(prefs: seq<string>): (r: seq<Preference>)
    ensures |r| == |prefs|
    ensures forall i :: 0 <= i < |prefs| ==> r[i] == Preference(prefs[i], i + 1)
  {
    seq(|prefs|, i requires 0 <= i < |prefs| => Preference(prefs[i], i + 1))
  }

  /** The catalog courses not listed, each at rank `len(courses)`. */
  function MissingEntries(prefs: seq<string>, catalog: seq<string>): set<Preference> {
    AtRank(Elems(catalog) - Elems(prefs), |catalog|)
  }

  /**
    * What `create_preference_tuples` stores for one instructor: nothing when the
    * preference list is empty, otherwise the listed and missing entries sorted
    * by `(rank, course)`.
    */
  predicate IsRankingTable(t: seq<Preference>, prefs: seq<string>, catalog: seq<string>) {
    if prefs == [] then t == []
    else Sorted(t) && multiset(t) == multiset(ListedEntries(prefs)) + multiset(MissingEntries(prefs, catalog))
  }

  /** Two tables for the same inputs are equal, whatever order the missing set was walked in. */
  lemma RankingTableUnique(t1: seq<Preference>, t2: seq<Preference>, prefs: seq<string>, catalog: seq<string>)
    requires IsRankingTable(t1, prefs, catalog) && IsRankingTable(t2, prefs, catalog)
    ensures t1 == t2
  {
    if prefs != [] {
      SortedUnique(t1, t2);
    }
  }

  /** The entries of a table: each listed course at its position, each unlisted catalog course at `len(courses)`. */
  lemma RankingTableEntries(t: seq<Preference>, prefs: seq<string>, catalog: seq<string>, x: Preference)
    requires prefs != [] && IsRankingTable(t, prefs, catalog)
    ensures x in t <==>
      (exists i :: 0 <= i < |prefs| && x == Preference(prefs[i], i + 1))
      || (x.course in catalog && x.course !in prefs && x.rank == |catalog|)
  {
    var listed := ListedEntries(prefs);
    assert x in t <==> x in multiset(t);
    assert x in multiset(listed) <==> exists i :: 0 <= i < |prefs| && x == listed[i];
  }

  /** Distinct names: the set of a sequence has as many elements as the sequence. */
  lemma {:induction false} DistinctCard(s: seq<string>)
    requires forall i, j :: 0 <= i < j < |s| ==> s[i] != s[j]
    ensures |Elems(s)| == |s|
  {
    if s != [] {
      DistinctCard(s[1..]);
      assert Elems(s) == Elems(s[1..]) + {s[0]};
      assert s[0] !in Elems(s[1..]);
    }
  }

  /**
    * With distinct listed courses that are all distinct catalog names, the
    * table has exactly one entry per catalog course.
    */
  lemma TableLengthIsCatalogSize(prefs: seq<string>, catalog: seq<string>)
    requires forall i, j :: 0 <= i < j < |prefs| ==> prefs[i] != prefs[j]
    requires forall i, j :: 0 <= i < j < |catalog| ==> catalog[i] != catalog[j]
    requires forall i :: 0 <= i < |prefs| ==> prefs[i] in catalog
    ensures |prefs| + |Elems(catalog) - Elems(prefs)| == |catalog|
  {
    DistinctCard(prefs);
    DistinctCard(catalog);
    var a, b := Elems(catalog), Elems(prefs);
    assert b <= a;
    assert a == (a - b) + b;
    assert (a - b) * b == {};
  }

  /** The courses of `cs`, each at rank `rank`. */
  function AtRank(cs: set<string>, rank: nat): set<Preference> {
    set c | c in cs :: Preference(c, rank)
  }

  lemma AtRankAdd(done: set<string>, c: string, rank: nat)
    requires c !in done
    ensures multiset(AtRank(done + {c}, rank)) == multiset(AtRank(done, rank)) + multiset{Preference(c, rank)}
  {
    assert AtRank(done + {c}, rank) == AtRank(done, rank) + {Preference(c, rank)};
    assert Preference(c, rank) !in AtRank(done, rank);
  }

  /** The loop over `listed` in `create_preference_tuples`: each course at its 1-based position. */
  method ListPreferences(prefs: seq<string>) returns (ranked: seq<Preference>)
    ensures ranked == ListedEntries(prefs)
  {
    ranked := [];
    var rank := 0;
    while rank < |prefs|
      invariant 0 <= rank <= |prefs|
      invariant ranked == ListedEntries(prefs[..rank])
    {
      ranked := ranked + [Preference(prefs[rank], rank + 1)];
      rank := rank + 1;
    }
    assert prefs[..rank] == prefs;
  }

  /** The loop over the missing courses: each appended once at `maxRank`, in whatever order the set yields them. */
  method AppendMissing(listed: seq<Preference>, missing: set<string>, maxRank: nat) returns (ranked: seq<Preference>)
    ensures multiset(ranked) == multiset(listed) + multiset(AtRank(missing, maxRank))
    ensures |ranked| == |listed| + |missing|
  {
    ranked := listed;
    var rest := missing;
    while rest != {}
      invariant rest <= missing
      invariant multiset(ranked) == multiset(listed) + multiset(AtRank(missing - rest, maxRank))
      invariant |ranked| == |listed| + |missing - rest|
      decreases |rest|
    {
      var c :| c in rest;
      assert missing - (rest - {c}) == (missing - rest) + {c};
      AtRankAdd(missing - rest, c, maxRank);
      ranked := ranked + [Preference(c, maxRank)];
      rest := rest - {c};
    }
    assert missing - rest == missing;
  }

  /** The table of one instructor, built as the loop body of `create_preference_tuples` builds it. */
  method RankPreferences(prefs: seq<string>, catalog: seq<string>) returns (ranked: seq<Preference>)
    ensures IsRankingTable(ranked, prefs, catalog)
    ensures prefs != [] ==> |ranked| == |prefs| + |Elems(catalog) - Elems(prefs)|
  {
    ranked := [];
    if prefs == [] {
      return;
    }
    var maxRank := |catalog|;
    ranked := ListPreferences(prefs);
    var missing := Elems(catalog) - Elems(prefs);
    ranked := AppendMissing(ranked, missing, maxRank);
    ranked := SortPreferences(ranked);
  }

  /** Instructor `i` is the last one named `instructors[i].name`, so its entry is the one a dict keeps. */
  predicate LastWithName(instructors: seq<Instructor>, i: nat, bound: nat)
    requires i < |instructors| && bound <= |instructors|
  {
    forall j :: i < j < bound ==> instructors[j].name != instructors[i].name
  }

  function NamesOf(instructors: seq<Instructor>, bound: nat): set<string>
    requires bound <= |instructors|
  {
    set i | 0 <= i < bound :: instructors[i].name
  }

  /**
    * `create_preference_tuples(instructors, courses)`: one table per instructor
    * name, the last instructor of a name winning as a dict assignment does.
    */
  method CreatePreferenceTuples(instructors: seq<Instructor>, courses: seq<Course>)
    returns (tables: map<string, seq<Preference>>)
    ensures tables.Keys == NamesOf(instructors, |instructors|)
    ensures forall i :: 0 <= i < |instructors| && LastWithName(instructors, i, |instructors|) ==>
      IsRankingTable(tables[instructors[i].name], instructors[i].preferences, CourseNames(courses))
  {
    var allCourses := CourseNames(courses);
    tables := map[];
    var k := 0;
    while k < |instructors|
      invariant 0 <= k <= |instructors|
      invariant tables.Keys == NamesOf(instructors, k)
      invariant forall i :: 0 <= i < k && LastWithName(instructors, i, k) ==>
        IsRankingTable(tables[instructors[i].name], instructors[i].preferences, allCourses)
    {
      var ranked := RankPreferences(instructors[k].preferences, allCourses);
      tables := tables[instructors[k].name := ranked];
      k := k + 1;
    }
  }

  /**
    * The rank `print_matching_results` reports for an assigned course: its
    * 1-based position in the preference list, or one past the end if unlisted.
    */
  function MatchRank(prefs: seq<string>, course: string): (r: nat)
    ensures 1 <= r <= |prefs| + 1
    ensures r <= |prefs| <==> course in prefs
    ensures r <= |prefs| ==> prefs[r - 1] == course
    ensures forall j :: 0 <= j < r - 1 ==> prefs[j] != course
  {
    if prefs == [] then 1
    else if prefs[0] == course then 1
    else 1 + MatchRank(prefs[1..], course)
  }

  /** The ranks of each assigned course, in order. */
  function MatchRanks(prefs: seq<string>, courses: seq<string>): (r: seq<nat>)
    ensures |r| == |courses|
    ensures forall k :: 0 <= k < |courses| ==> r[k] == MatchRank(prefs, courses[k])
  {
    seq(|courses|, k requires 0 <= k < |courses| => MatchRank(prefs, courses[k]))
  }

  /**
    * The rank computation of `print_matching_results`. Looking up an instructor
    * absent from `individuals` raises KeyError, but only when that instructor
    * has an assigned course to rank.
    */
  method PrintMatchingResults(assignments: map<string, seq<string>>, individuals: map<string, seq<string>>)
    returns (result: Result<map<string, seq<nat>>>)
    ensures result.Ok? <==> forall name :: name in assignments && assignments[name] != [] ==> name in individuals
    ensures result.Ok? ==> result.value.Keys == assignments.Keys
    ensures result.Ok? ==> forall name :: name in assignments ==>
      result.value[name] == if assignments[name] == [] then [] else MatchRanks(individuals[name], assignments[name])
    ensures result.Err? ==>
      exists name :: name in assignments && assignments[name] != [] && name !in individuals && result.message == name
  {
    var ranks: map<string, seq<nat>> := map[];
    var todo := assignments.Keys;
    while todo != {}
      invariant todo <= assignments.Keys
      invariant ranks.Keys == assignments.Keys - todo
      invariant forall name :: name in ranks ==> assignments[name] != [] ==> name in individuals
      invariant forall name :: name in ranks ==>
        ranks[name] == if assignments[name] == [] then [] else MatchRanks(individuals[name], assignments[name])
      decreases |todo|
    {
      var name :| name in todo;
      var courses := assignments[name];
      var instructorRanks: seq<nat> := [];
      if courses != [] {
        if name !in individuals {
          return Err(name);
        }
        instructorRanks := RankCourses(individuals[name], courses);
      }
      ranks := ranks[name := instructorRanks];
      todo := todo - {name};
    }
    return Ok(ranks);
  }

  /** The inner loop of `print_matching_results`: one rank per assigned course, in order. */
  method RankCourses(prefs: seq<string>, courses: seq<string>) returns (ranks: seq<nat>)
    ensures ranks == MatchRanks(prefs, courses)
  {
    ranks := [];
    var k := 0;
    while k < |courses|
      invariant 0 <= k <= |courses|
      invariant ranks == MatchRanks(prefs, courses[..k])
    {
      var course := courses[k];
      var rank;
      if course in prefs {
        var index := IndexOf(prefs, course);
        rank := index + 1;
      } else {
        rank := |prefs| + 1;
      }
      ranks := ranks + [rank];
      k := k + 1;
    }
    assert courses[..k] == courses;
  }

  /** `list.index(x)` for an element that is present: the first position holding it. */
  method IndexOf(s: seq<string>, x: string) returns (i: nat)
    requires x in s
    ensures i < |s| && s[i] == x
    ensures forall j :: 0 <= j < i ==> s[j] != x
    ensures i + 1 == MatchRank(s, x)
  {
    i := 0;
    while s[i] != x
      invariant 0 <= i < |s|
      invariant forall j :: 0 <= j < i ==> s[j] != x
      invariant x in s[i..]
      decreases |s| - i
    {
      i := i + 1;
    }
  }
}
