/**
  * jobmatch/genetic_algorithm.py: `fitness_function` (lines 128-204).
  *
  * Step 1 files each gene's course under its instructor's name; step 2
  * charges every name the cap penalties and adds up the score of each
  * assigned section: preference, degree nudge and director penalty. The
  * dictionaries are keyed by name, so a name shared by several records has
  * one load, held in the slot of its first record (where the key sits), and
  * is scored once, with its last record (the one the lookups keep). The
  * dictionary lookups that raise KeyError become `Err(KeyError)`.
  */
module GeneticFitness {
  import opened Wrappers
  import opened Text
  import opened Entities
  import opened LinearProgram
  import opened Genetic


  /** The courses a master's-degree instructor is nudged towards. */
  const CoreCourses: seq<string> := ["PS211", "PS211FR", "SocSci311", "SocSci212"]

  /**
    * Step 1 (lines 150, 158-161): each name's course names in chromosome
    * order, indexed like `instructors` and held in the slot of the first
    * instructor bearing the name; a gene whose instructor is none of them
    * raises a KeyError.
    */
  function Loads(instructors: seq<Instructor>, genes: seq<Gene>): (r: Result<seq<seq<string>>>)
    ensures r.Ok? <==> forall k :: 0 <= k < |genes| ==> FindInstructor(instructors, Head(genes[k].0, Sep)).Some?
    ensures r.Ok? ==> |r.value| == |instructors|
    ensures r.Err? ==> r == Err(KeyError)
  {
    if genes == [] then Ok(Repeat([], |instructors|))
    else
      var n := |genes| - 1;
      assert forall k :: 0 <= k < n ==> genes[..n][k] == genes[k];
      match Loads(instructors, genes[..n])
      case Err(e) => Err(e)
      case Ok(loads) =>
        match FindInstructor(instructors, Head(genes[n].0, Sep))
        case None => Err(KeyError)
        case Some(i) => Ok(loads[i := loads[i] + [Head(genes[n].1, Sep)]])
  }

  /** The number of courses in each load. */
  function LoadSizes(loads: seq<seq<string>>): (r: seq<nat>)
    ensures |r| == |loads| && forall i :: 0 <= i < |loads| ==> r[i] == |loads[i]|
  {
    seq(|loads|, i requires 0 <= i < |loads| => |loads[i]|)
  }

  lemma {:induction false} SumZeros(s: seq<nat>)
    requires forall i :: 0 <= i < |s| ==> s[i] == 0
    ensures Sum(s) == 0
  {
    if s != [] {
      SumZeros(s[1..]);
    }
  }

  /** Step 1 files every gene in exactly one load: the loads hold as many courses as the chromosome has genes. */
  lemma {:induction false} LoadsCount(instructors: seq<Instructor>, genes: seq<Gene>)
    requires Loads(instructors, genes).Ok?
    ensures Sum(LoadSizes(Loads(instructors, genes).value)) == |genes|
  {
    if genes == [] {
      SumZeros(LoadSizes(Repeat([], |instructors|)));
    } else {
      var n := |genes| - 1;
      var i := LoadsLast(instructors, genes);
      var loads := Loads(instructors, genes[..n]).value;
      LoadsCount(instructors, genes[..n]);
      GrowLoad(loads, i, Head(genes[n].1, Sep));
    }
  }

  /** A chromosome that files without error files its last gene under instructor `i` after the others. */
  lemma LoadsLast(instructors: seq<Instructor>, genes: seq<Gene>) returns (i: nat)
    requires genes != [] && Loads(instructors, genes).Ok?
    ensures Loads(instructors, genes[..|genes| - 1]).Ok?
    ensures FindInstructor(instructors, Head(genes[|genes| - 1].0, Sep)) == Some(i)
    ensures var loads := Loads(instructors, genes[..|genes| - 1]).value;
      i < |loads| && Loads(instructors, genes).value == loads[i := loads[i] + [Head(genes[|genes| - 1].1, Sep)]]
  {
    var n := |genes| - 1;
    i := FindInstructor(instructors, Head(genes[n].0, Sep)).value;
  }

  /**
    * Step 1 files genes only under keys: the slot of an instructor whose name
    * an earlier instructor already bears stays empty.
    */
  lemma {:induction false} LoadsOnKeySlots(instructors: seq<Instructor>, genes: seq<Gene>)
    requires Loads(instructors, genes).Ok?
    ensures forall i :: 0 <= i < |instructors| && !KeySlot(instructors, i) ==> Loads(instructors, genes).value[i] == []
  {
    if genes != [] {
      var n := |genes| - 1;
      var f := LoadsLast(instructors, genes);
      LoadsOnKeySlots(instructors, genes[..n]);
      assert KeySlot(instructors, f);
    }
  }

  /** One more course in load `i` adds one to the total. */
  lemma GrowLoad(loads: seq<seq<string>>, i: nat, course: string)
    requires i < |loads|
    ensures Sum(LoadSizes(loads[i := loads[i] + [course]])) == Sum(LoadSizes(loads)) + 1
  {
    assert LoadSizes(loads[i := loads[i] + [course]]) == LoadSizes(loads)[i := |loads[i]| + 1];
    SumUpdate(LoadSizes(loads), i, |loads[i]| + 1);
  }

  /** `prefs.index(course)` when `course in prefs`. */
  function PreferenceRank(prefs: seq<string>, course: string): (r: Option<nat>)
    ensures r.None? <==> course !in prefs
    ensures r.Some? ==> r.value < |prefs| && prefs[r.value] == course && course !in prefs[..r.value]
  {
    if prefs == [] then None
    else if prefs[0] == course then Some(0)
    else match PreferenceRank(prefs[1..], course)
      case None => None
      case Some(k) =>
        assert prefs[..k + 1] == [prefs[0]] + prefs[1..][..k];
        Some(k + 1)
  }

  /**
    * Lines 182-186: a course listed at 0-based rank `r` adds `10 - r`, an
    * unlisted one costs `non_preferred_penalty`.
    */
  function PreferenceScore(prefs: seq<string>, course: string, nonPreferred: int): (r: int)
    ensures course !in prefs ==> r == -nonPreferred
    ensures course in prefs ==> 0 <= 10 - r < |prefs| && prefs[10 - r] == course && course !in prefs[..10 - r]
  {
    match PreferenceRank(prefs, course)
    case Some(rank) => 10 - rank
    case None => -nonPreferred
  }

  /** Lines 189-195: for a 'mas' degree, a core course adds the penalty and any other course costs it. */
  function DegreeScore(degree: Option<string>, course: string, nonPreferred: int): (r: int)
    ensures degree != Some("mas") ==> r == 0
    ensures degree == Some("mas") && course in CoreCourses ==> r == nonPreferred
    ensures degree == Some("mas") && course !in CoreCourses ==> r == -nonPreferred
  {
    if degree != Some("mas") then 0
    else if course in CoreCourses then nonPreferred
    else -nonPreferred
  }

  /**
    * Lines 198-202, for one assigned section of course `c`: its director,
    * holding `count` sections of it, loses `penalty * (cap - count)` while
    * `count < min(cap, sections)`. Anyone else, and a director holding
    * `min(cap, sections)` of them, loses nothing.
    */
  function DirectorScore(inst: Instructor, load: seq<string>, c: Course, sections: nat, cap: int,
                         penalty: int): (r: int)
    ensures c.courseDirector != Some(inst.name) ==> r == 0
    ensures multiset(load)[c.name] >= Min(cap, sections) ==> r == 0
    ensures penalty >= 0 ==> r <= 0
    ensures c.courseDirector == Some(inst.name) && multiset(load)[c.name] < Min(cap, sections)
            ==> r == -penalty * (cap - multiset(load)[c.name])
  {
    if c.courseDirector == Some(inst.name) then
      var count := multiset(load)[c.name];
      if count < Min(cap, sections) then -penalty * (cap - count) else 0
    else 0
  }

  /**
    * One assigned section's score, with the course record `course_lookup`
    * keeps (the last of that name); a course missing from the catalog raises
    * a KeyError.
    */
  function CourseScore(inst: Instructor, load: seq<string>, courses: seq<Course>, sections: seq<nat>,
                       cap: int, course: string, nonPreferred: int, directorPenalty: int): Result<int>
    requires |sections| == |courses|
  {
    match LastCourse(courses, course)
    case None => Err(KeyError)
    case Some(j) =>
      Ok(PreferenceScore(inst.preferences, course, nonPreferred)
         + DegreeScore(inst.degree, course, nonPreferred)
         + DirectorScore(inst, load, courses[j], sections[j], cap, directorPenalty))
  }

  /** The scores of every section in `load`, in order. */
  function CourseScores(inst: Instructor, load: seq<string>, courses: seq<Course>, sections: seq<nat>,
                        cap: int, nonPreferred: int, directorPenalty: int): (r: seq<Result<int>>)
    requires |sections| == |courses|
    ensures |r| == |load|
    ensures forall m :: 0 <= m < |load| ==>
      r[m] == CourseScore(inst, load, courses, sections, cap, load[m], nonPreferred, directorPenalty)
  {
    seq(|load|, m requires 0 <= m < |load| =>
      CourseScore(inst, load, courses, sections, cap, load[m], nonPreferred, directorPenalty))
  }

  /**
    * Lines 168-171: 25 for each distinct course over `max_unique_classes`
    * and 25 for each section over the instructor's `max_sections`.
    */
  function CapPenalty(load: seq<string>, maxUnique: int, cap: int): (r: int)
    ensures r >= 0
    ensures r == 0 <==> |Elems(load)| <= maxUnique && |load| <= cap
    ensures |Elems(load)| > maxUnique && |load| <= cap ==> r == 25 * (|Elems(load)| - maxUnique)
    ensures |Elems(load)| <= maxUnique && |load| > cap ==> r == 25 * (|load| - cap)
  {
    (if |Elems(load)| > maxUnique then 25 * (|Elems(load)| - maxUnique) else 0)
    + (if |load| > cap then 25 * (|load| - cap) else 0)
  }

  /** Combining two scores; the first raised error wins. */
  function Plus(acc: Result<int>, x: Result<int>): Result<int> {
    if acc.Err? then acc else if x.Err? then x else Ok(acc.value + x.value)
  }

  /** The sum of scores, or an error when any of them raised one. */
  function Total(rs: seq<Result<int>>): Result<int> {
    if rs == [] then Ok(0)
    else
      var n := |rs| - 1;
      Plus(Total(rs[..n]), rs[n])
  }

  /** The sum is an error exactly when one of the scores is. */
  lemma {:induction false} TotalOk(rs: seq<Result<int>>)
    ensures Total(rs).Ok? <==> forall k :: 0 <= k < |rs| ==> rs[k].Ok?
  {
    if rs != [] {
      var n := |rs| - 1;
      TotalOk(rs[..n]);
      assert forall k :: 0 <= k < n ==> rs[..n][k] == rs[k];
    }
  }

  /** Adding up one more score. */
  lemma TotalStep(rs: seq<Result<int>>, m: nat)
    requires m < |rs|
    ensures Total(rs[..m + 1]) == Plus(Total(rs[..m]), rs[m])
  {
    assert rs[..m + 1][..m] == rs[..m];
  }

  /** One more score that is not an error adds its value to the running sum. */
  lemma TotalOkStep(rs: seq<Result<int>>, m: nat, sum: int, v: int)
    requires m < |rs| && Total(rs[..m]) == Ok(sum) && rs[m] == Ok(v)
    ensures Total(rs[..m + 1]) == Ok(sum + v)
  {
    TotalStep(rs, m);
  }

  /** An error among the first `m + 1` scores is an error of the sum. */
  lemma ErrorRaised(rs: seq<Result<int>>, m: nat)
    requires m < |rs| && rs[m].Err?
    ensures Total(rs).Err?
  {
    TotalOk(rs);
  }

  /**
    * Lines 165-202 for one instructor: the cap penalties, then the score of
    * every load section. A name missing from `max_sections` raises.
    */
  function InstructorScore(inst: Instructor, load: seq<string>, courses: seq<Course>, sections: seq<nat>,
                           maxSections: map<string, int>, maxUnique: int, nonPreferred: int,
                           directorPenalty: int): Result<int>
    requires |sections| == |courses|
  {
    if inst.name !in maxSections then Err(KeyError)
    else
      var cap := maxSections[inst.name];
      Plus(Ok(-CapPenalty(load, maxUnique, cap)),
           Total(CourseScores(inst, load, courses, sections, cap, nonPreferred, directorPenalty)))
  }

  /** Slot `i` holds the key of `instructor_sections`: it is the first instructor bearing its name. */
  predicate KeySlot(instructors: seq<Instructor>, i: nat)
    requires i < |instructors|
  {
    FindInstructor(instructors, instructors[i].name) == Some(i)
  }

  /** The record `instructor_lookup` keeps for the name of instructor `i`: the last bearing it. */
  function Holder(instructors: seq<Instructor>, i: nat): (h: nat)
    requires i < |instructors|
    ensures h < |instructors| && instructors[h].name == instructors[i].name
    ensures forall k :: h < k < |instructors| ==> instructors[k].name != instructors[i].name
  {
    LastInstructor(instructors, instructors[i].name).value
  }

  /**
    * The score of every slot (lines 164-202): a key slot is scored on its
    * load with the record the lookup keeps; any other slot is no entry of
    * `instructor_sections` and adds nothing.
    */
  function InstructorScores(instructors: seq<Instructor>, loads: seq<seq<string>>, courses: seq<Course>,
                            sections: seq<nat>, maxSections: map<string, int>, maxUnique: int,
                            nonPreferred: int, directorPenalty: int): (r: seq<Result<int>>)
    requires |loads| == |instructors| && |sections| == |courses|
    ensures |r| == |instructors|
    ensures forall i :: 0 <= i < |instructors| && KeySlot(instructors, i) ==>
      r[i] == InstructorScore(instructors[Holder(instructors, i)], loads[i], courses, sections, maxSections,
                              maxUnique, nonPreferred, directorPenalty)
    ensures forall i :: 0 <= i < |instructors| && !KeySlot(instructors, i) ==> r[i] == Ok(0)
  {
    seq(|instructors|, i requires 0 <= i < |instructors| =>
      if KeySlot(instructors, i)
      then InstructorScore(instructors[Holder(instructors, i)], loads[i], courses, sections, maxSections,
                           maxUnique, nonPreferred, directorPenalty)
      else Ok(0))
  }

  /**
    * `fitness_function(chromosome, ...)` over the courses' remaining
    * `sections`: the loads of step 1, then the instructors' scores added up
    * in instructor order.
    */
  function FitnessSpec(chromosome: seq<Gene>, instructors: seq<Instructor>, courses: seq<Course>,
                       sections: seq<nat>, maxSections: map<string, int>, maxUnique: int,
                       nonPreferred: int, directorPenalty: int): Result<int>
    requires |sections| == |courses|
  {
    match Loads(instructors, chromosome)
    case Err(e) => Err(e)
    case Ok(loads) =>
      Total(InstructorScores(instructors, loads, courses, sections, maxSections, maxUnique,
                             nonPreferred, directorPenalty))
  }

  /** Step 1 as a loop: the loads, or the KeyError of the first gene whose instructor is unknown. */
  method CollectLoads(chromosome: seq<Gene>, instructors: seq<Instructor>) returns (r: Result<seq<seq<string>>>)
    ensures r == Loads(instructors, chromosome)
  {
    var loads := Repeat([], |instructors|);
    var k := 0;
    while k < |chromosome|
      invariant k <= |chromosome|
      invariant Loads(instructors, chromosome[..k]) == Ok(loads)
    {
      assert chromosome[..k + 1][..k] == chromosome[..k];
      var instructorName := Head(chromosome[k].0, Sep);
      var courseName := Head(chromosome[k].1, Sep);
      match FindInstructor(instructors, instructorName) {
        case None =>
          assert !Loads(instructors, chromosome).Ok?;
          return Err(KeyError);
        case Some(i) =>
          loads := loads[i := loads[i] + [courseName]];
      }
      k := k + 1;
    }
    assert chromosome[..k] == chromosome;
    r := Ok(loads);
  }

  /** Lines 177-202: a loop adding up the scores of the sections in `load`. */
  method ScoreSections(inst: Instructor, load: seq<string>, courses: seq<Course>, cap: int, nonPreferred: int,
                       directorPenalty: int) returns (r: Result<int>)
    ensures var spec := Total(CourseScores(inst, load, courses, SectionsOf(courses), cap, nonPreferred,
                                           directorPenalty));
            (r.Ok? <==> spec.Ok?) && (r.Ok? ==> r == spec)
  {
    ghost var terms := CourseScores(inst, load, courses, SectionsOf(courses), cap, nonPreferred, directorPenalty);
    var fitness := 0;
    var m := 0;
    while m < |load|
      invariant m <= |load|
      invariant Total(terms[..m]) == Ok(fitness)
    {
      match LastCourse(courses, load[m]) {
        case None =>
          ErrorRaised(terms, m);
          return Err(KeyError);
        case Some(j) =>
          var c := courses[j];
          var v := PreferenceScore(inst.preferences, load[m], nonPreferred)
                   + DegreeScore(inst.degree, load[m], nonPreferred)
                   + DirectorScore(inst, load, c, c.sectionsAvailable, cap, directorPenalty);
          TotalOkStep(terms, m, fitness, v);
          fitness := fitness + v;
      }
      m := m + 1;
    }
    assert terms[..m] == terms;
    r := Ok(fitness);
  }

  /** Lines 165-171: the cap penalties, subtracted from a score of zero. */
  method CapPenalties(load: seq<string>, maxUnique: int, cap: int) returns (fitness: int)
    ensures fitness == -CapPenalty(load, maxUnique, cap)
  {
    fitness := 0;
    var unique := Elems(load);
    if |unique| > maxUnique {
      fitness := fitness - 25 * (|unique| - maxUnique);
    }
    if |load| > cap {
      fitness := fitness - 25 * (|load| - cap);
    }
  }

  /** Lines 165-202 for one instructor: the cap penalties, then the sections' scores. */
  method ScoreInstructor(inst: Instructor, load: seq<string>, courses: seq<Course>, maxSections: map<string, int>,
                         maxUnique: int, nonPreferred: int, directorPenalty: int) returns (r: Result<int>)
    ensures var spec := InstructorScore(inst, load, courses, SectionsOf(courses), maxSections, maxUnique,
                                        nonPreferred, directorPenalty);
            (r.Ok? <==> spec.Ok?) && (r.Ok? ==> r == spec)
  {
    if inst.name !in maxSections {
      return Err(KeyError);
    }
    var cap := maxSections[inst.name];
    var fitness := CapPenalties(load, maxUnique, cap);
    var sectionsScore := ScoreSections(inst, load, courses, cap, nonPreferred, directorPenalty);
    if sectionsScore.Err? {
      return Err(KeyError);
    }
    r := Ok(fitness + sectionsScore.value);
  }

  /**
    * Lines 164-202: a loop adding up the scores of the keys of
    * `instructor_sections`, in the order their names first occur.
    */
  method ScoreInstructors(instructors: seq<Instructor>, loads: seq<seq<string>>, courses: seq<Course>,
                          maxSections: map<string, int>, maxUnique: int, nonPreferred: int, directorPenalty: int)
    returns (r: Result<int>)
    requires |loads| == |instructors|
    ensures var spec := Total(InstructorScores(instructors, loads, courses, SectionsOf(courses), maxSections,
                                               maxUnique, nonPreferred, directorPenalty));
            (r.Ok? <==> spec.Ok?) && (r.Ok? ==> r == spec)
  {
    ghost var scores := InstructorScores(instructors, loads, courses, SectionsOf(courses), maxSections, maxUnique,
                                         nonPreferred, directorPenalty);
    var fitness := 0;
    var i := 0;
    while i < |instructors|
      invariant i <= |instructors|
      invariant Total(scores[..i]) == Ok(fitness)
    {
      if FindInstructor(instructors, instructors[i].name) == Some(i) {
        var holder := LastInstructor(instructors, instructors[i].name).value;
        var score := ScoreInstructor(instructors[holder], loads[i], courses, maxSections, maxUnique, nonPreferred,
                                     directorPenalty);
        if score.Err? {
          ErrorRaised(scores, i);
          return Err(KeyError);
        }
        TotalOkStep(scores, i, fitness, score.value);
        fitness := fitness + score.value;
      } else {
        TotalOkStep(scores, i, fitness, 0);
      }
      i := i + 1;
    }
    assert scores[..i] == scores;
    r := Ok(fitness);
  }

  /** `fitness_function`: step 1, then step 2. */
  method Fitness(chromosome: seq<Gene>, instructors: seq<Instructor>, courses: seq<Course>,
                 maxSections: map<string, int>, maxUnique: int, nonPreferred: int, directorPenalty: int)
    returns (r: Result<int>)
    ensures var spec := FitnessSpec(chromosome, instructors, courses, SectionsOf(courses), maxSections, maxUnique,
                                    nonPreferred, directorPenalty);
            (r.Ok? <==> spec.Ok?) && (r.Ok? ==> r == spec)
  {
    var loads := CollectLoads(chromosome, instructors);
    if loads.Err? {
      return Err(KeyError);
    }
    r := ScoreInstructors(instructors, loads.value, courses, maxSections, maxUnique, nonPreferred, directorPenalty);
  }

  /** Step 1 reads only the names in the ids, so it ignores section numbers. */
  lemma {:induction false} LoadsSameHeads(instructors: seq<Instructor>, c1: seq<Gene>, c2: seq<Gene>)
    requires |c1| == |c2|
    requires forall k :: 0 <= k < |c1| ==>
      Head(c1[k].0, Sep) == Head(c2[k].0, Sep) && Head(c1[k].1, Sep) == Head(c2[k].1, Sep)
    ensures Loads(instructors, c1) == Loads(instructors, c2)
  {
    if c1 != [] {
      var n := |c1| - 1;
      LoadsSameHeads(instructors, c1[..n], c2[..n]);
    }
  }

  /** Two chromosomes naming the same instructors and courses gene by gene have the same fitness. */
  lemma FitnessSectionBlind(c1: seq<Gene>, c2: seq<Gene>, instructors: seq<Instructor>, courses: seq<Course>,
                            sections: seq<nat>, maxSections: map<string, int>, maxUnique: int, nonPreferred: int,
                            directorPenalty: int)
    requires |sections| == |courses| && |c1| == |c2|
    requires forall k :: 0 <= k < |c1| ==>
      Head(c1[k].0, Sep) == Head(c2[k].0, Sep) && Head(c1[k].1, Sep) == Head(c2[k].1, Sep)
    ensures FitnessSpec(c1, instructors, courses, sections, maxSections, maxUnique, nonPreferred, directorPenalty)
         == FitnessSpec(c2, instructors, courses, sections, maxSections, maxUnique, nonPreferred, directorPenalty)
  {
    LoadsSameHeads(instructors, c1, c2);
  }

  /**
    * A mutation that hands a gene to another section of the instructor who
    * already holds it leaves the fitness as it was.
    */
  lemma MutationWithinInstructor(c: seq<Gene>, g: nat, name: string, n: nat, instructors: seq<Instructor>,
                                 courses: seq<Course>, sections: seq<nat>, maxSections: map<string, int>,
                                 maxUnique: int, nonPreferred: int, directorPenalty: int)
    requires |sections| == |courses| && g < |c|
    requires SeparatorFree(name) && Head(c[g].0, Sep) == name
    ensures FitnessSpec(Mutated(c, g, SectionName(name, n)), instructors, courses, sections, maxSections, maxUnique,
                        nonPreferred, directorPenalty)
         == FitnessSpec(c, instructors, courses, sections, maxSections, maxUnique, nonPreferred, directorPenalty)
  {
    HeadOfSectionName(name, n);
    FitnessSectionBlind(Mutated(c, g, SectionName(name, n)), c, instructors, courses, sections, maxSections,
                        maxUnique, nonPreferred, directorPenalty);
  }

  lemma {:induction false} TotalZeros(rs: seq<Result<int>>)
    requires forall k :: 0 <= k < |rs| ==> rs[k] == Ok(0)
    ensures Total(rs) == Ok(0)
  {
    if rs != [] {
      TotalZeros(rs[..|rs| - 1]);
    }
  }

  /**
    * With non-negative caps for every instructor, the empty chromosome
    * earns nothing and costs nothing.
    */
  lemma FitnessOfEmpty(instructors: seq<Instructor>, courses: seq<Course>, sections: seq<nat>,
                       maxSections: map<string, int>, maxUnique: int, nonPreferred: int, directorPenalty: int)
    requires |sections| == |courses| && maxUnique >= 0
    requires forall i :: 0 <= i < |instructors| ==>
      instructors[i].name in maxSections && maxSections[instructors[i].name] >= 0
    ensures FitnessSpec([], instructors, courses, sections, maxSections, maxUnique, nonPreferred, directorPenalty)
         == Ok(0)
  {
    var loads := Repeat([], |instructors|);
    var scores := InstructorScores(instructors, loads, courses, sections, maxSections, maxUnique, nonPreferred,
                                   directorPenalty);
    assert Elems<string>([]) == {};
    forall i | 0 <= i < |instructors|
      ensures scores[i] == Ok(0)
    {
      var cap := maxSections[instructors[i].name];
      assert CourseScores(instructors[Holder(instructors, i)], [], courses, sections, cap, nonPreferred,
                          directorPenalty) == [];
    }
    TotalZeros(scores);
  }
}
