/**
  * jobmatch/genetic_algorithm.py: `initialize_population` (lines 13-49).
  *
  * Each individual takes the courses in catalog order: first the course
  * director's genes, then one gene with a randomly drawn instructor section
  * for every section not yet covered by a gene of that course. The random
  * numbering restarts at 1, so a course with a director repeats the
  * director's course-section ids.
  */
module GeneticPopulation {
  import opened Wrappers
  import opened Text
  import opened Entities
  import opened LinearProgram
  import opened Genetic


  /** Lines 27-29: every instructor's section ids, instructor by instructor. */
  function SectionIds(instructors: seq<Instructor>): (ids: seq<string>)
    ensures |ids| == |AllSections(instructors)|
    ensures forall k :: 0 <= k < |ids| ==> ids[k] == AllSections(instructors)[k].name
  {
    var all := AllSections(instructors);
    seq(|all|, k requires 0 <= k < |all| => all[k].name)
  }

  /**
    * Lines 30, 36-38: the course's director, when it names one that an
    * instructor has; `instructor_lookup` keeps the last instructor of a name.
    */
  function Director(instructors: seq<Instructor>, c: Course): (r: Option<nat>)
    ensures r.Some? ==> r.value < |instructors|
  {
    if c.courseDirector.Some? && c.courseDirector.value != "" then LastInstructor(instructors, c.courseDirector.value)
    else None
  }

  /**
    * The director found is the last instructor of the course's director
    * name; none is found when no instructor has it.
    */
  lemma DirectorMeans(instructors: seq<Instructor>, c: Course)
    ensures var r := Director(instructors, c);
            && (r.Some? ==> c.courseDirector == Some(instructors[r.value].name))
            && (r.Some? ==> forall i :: r.value < i < |instructors| ==> instructors[i].name != instructors[r.value].name)
            && (r.None? <==>
                || c.courseDirector.None?
                || c.courseDirector.value == ""
                || forall i :: 0 <= i < |instructors| ==> instructors[i].name != c.courseDirector.value)
  {
  }

  /**
    * Lines 39-40: the director's genes `(director_section_s, course_section_s)`
    * for s = 1 .. min(sections_available, max_classes).
    */
  function DirectorGenes(director: Instructor, c: Course, sections: nat): (r: seq<Gene>)
    ensures |r| == Min(sections, director.maxClasses)
  {
    var n: nat := Min(sections, director.maxClasses);
    seq(n, s requires 0 <= s < n => (SectionName(director.name, s + 1), SectionName(c.name, s + 1)))
  }

  /** The director's genes of a course, none when it has no known director. */
  function DirectorPart(instructors: seq<Instructor>, c: Course, sections: nat): (r: seq<Gene>)
    ensures |r| <= sections
  {
    match Director(instructors, c)
    case None => []
    case Some(i) => DirectorGenes(instructors[i], c, sections)
  }

  /** Director gene `s` pairs the director's and the course's section `s + 1`. */
  lemma DirectorGenesAt(director: Instructor, c: Course, sections: nat)
    ensures var r := DirectorGenes(director, c, sections);
            forall s :: 0 <= s < |r| ==> r[s] == (SectionName(director.name, s + 1), SectionName(c.name, s + 1))
  {
  }

  /** Genes whose course sections are sections 1, 2, ... of the course `name`. */
  predicate Numbered(genes: seq<Gene>, name: string) {
    forall s :: 0 <= s < |genes| ==> genes[s].1 == SectionName(name, s + 1)
  }

  /** The director's genes hold the course's sections 1, 2, ... */
  lemma DirectorPartNumbered(instructors: seq<Instructor>, c: Course, sections: nat)
    ensures Numbered(DirectorPart(instructors, c, sections), c.name)
  {
    match Director(instructors, c)
    case None =>
    case Some(i) => DirectorGenesAt(instructors[i], c, sections);
  }

  /** The director's genes of every course, the course with index `j` having `sections[j]` sections left. */
  function DirectorParts(instructors: seq<Instructor>, courses: seq<Course>, sections: seq<nat>): (r: seq<seq<Gene>>)
    requires |courses| == |sections|
    ensures |r| == |courses|
  {
    seq(|courses|, j requires 0 <= j < |courses| => DirectorPart(instructors, courses[j], sections[j]))
  }

  /** Director genes that fit their courses: no more genes than sections, numbered from 1. */
  predicate DirectorsFit(dirs: seq<seq<Gene>>, courses: seq<Course>, sections: seq<nat>) {
    && |dirs| == |courses| == |sections|
    && forall j :: 0 <= j < |dirs| ==> |dirs[j]| <= sections[j] && Numbered(dirs[j], courses[j].name)
  }

  lemma DirectorPartsFit(instructors: seq<Instructor>, courses: seq<Course>, sections: seq<nat>)
    requires |courses| == |sections|
    ensures DirectorsFit(DirectorParts(instructors, courses, sections), courses, sections)
  {
    forall j | 0 <= j < |courses|
      ensures Numbered(DirectorParts(instructors, courses, sections)[j], courses[j].name)
    {
      DirectorPartNumbered(instructors, courses[j], sections[j]);
    }
  }

  /** `f"{course.name}_section"`, the prefix line 43 counts by. */
  function CoursePrefix(name: string): string {
    name + "_section"
  }

  /** Line 43: `len([pair for pair in chromosome if pair[1].startswith(prefix)])`. */
  function CountPrefixed(genes: seq<Gene>, prefix: string): (n: nat)
    ensures n <= |genes|
  {
    if genes == [] then 0
    else
      var n := |genes| - 1;
      CountPrefixed(genes[..n], prefix) + if StartsWith(genes[n].1, prefix) then 1 else 0
  }

  lemma {:induction false} CountPrefixedAppend(a: seq<Gene>, b: seq<Gene>, prefix: string)
    ensures CountPrefixed(a + b, prefix) == CountPrefixed(a, prefix) + CountPrefixed(b, prefix)
  {
    if b == [] {
      assert a + b == a;
    } else {
      var n := |b| - 1;
      CountPrefixedAppend(a, b[..n], prefix);
      assert (a + b)[..|a + b| - 1] == a + b[..n];
    }
  }

  lemma {:induction false} CountPrefixedAll(genes: seq<Gene>, prefix: string)
    requires forall k :: 0 <= k < |genes| ==> StartsWith(genes[k].1, prefix)
    ensures CountPrefixed(genes, prefix) == |genes|
  {
    if genes != [] {
      CountPrefixedAll(genes[..|genes| - 1], prefix);
    }
  }

  lemma {:induction false} CountPrefixedNone(genes: seq<Gene>, prefix: string)
    requires forall k :: 0 <= k < |genes| ==> !StartsWith(genes[k].1, prefix)
    ensures CountPrefixed(genes, prefix) == 0
  {
    if genes != [] {
      CountPrefixedNone(genes[..|genes| - 1], prefix);
    }
  }

  /** `random.choice(ids)`, a draw `d` standing for the choice `ids[d % len(ids)]`. */
  function Choice(ids: seq<string>, d: nat): (r: string)
    requires ids != []
    ensures r in ids
  {
    ids[d % |ids|]
  }

  /**
    * Lines 43-45: `count` genes for course `c`, numbered from 1, each with the
    * instructor section `Choice(ids, draw(individual, course, s))`.
    */
  function RandomGenes(ids: seq<string>, c: Course, count: nat, draw: (nat, nat, nat) -> nat, p: nat, j: nat)
    : (r: seq<Gene>)
    requires ids != []
    ensures |r| == count
  {
    if count == 0 then []
    else RandomGenes(ids, c, count - 1, draw, p, j) + [(Choice(ids, draw(p, j, count - 1)), SectionName(c.name, count))]
  }

  /** Random gene `s` is section `s + 1` of the course, with the instructor section drawn for it. */
  lemma {:induction false} RandomGenesAt(ids: seq<string>, c: Course, count: nat, draw: (nat, nat, nat) -> nat,
                                         p: nat, j: nat)
    requires ids != []
    ensures forall s :: 0 <= s < count ==>
      RandomGenes(ids, c, count, draw, p, j)[s] == (Choice(ids, draw(p, j, s)), SectionName(c.name, s + 1))
  {
    if count > 0 {
      RandomGenesAt(ids, c, count - 1, draw, p, j);
    }
  }

  /**
    * Lines 35-45 for course `j`: the director's genes `d`, then one random gene
    * for each section not yet covered by a gene of this course. Drawing from
    * no section ids raises.
    */
  function AddCourse(ids: seq<string>, d: seq<Gene>, c: Course, sections: nat, chrom: seq<Gene>,
                     draw: (nat, nat, nat) -> nat, p: nat, j: nat): Result<seq<Gene>>
  {
    var withDirector := chrom + d;
    var rest := sections - CountPrefixed(withDirector, CoursePrefix(c.name));
    if rest <= 0 then Ok(withDirector)
    else if ids == [] then Err("cannot choose from an empty sequence")
    else Ok(withDirector + RandomGenes(ids, c, rest, draw, p, j))
  }

  /**
    * Individual `p` after the first `k` courses, the courses having
    * `sections` left and the director genes `dirs`, the random genes being
    * drawn from the section ids `ids`. The director's genes do not depend on
    * the chromosome, so they are looked up once per course here.
    */
  function Individual(ids: seq<string>, dirs: seq<seq<Gene>>, courses: seq<Course>, sections: seq<nat>,
                      draw: (nat, nat, nat) -> nat, p: nat, k: nat): Result<seq<Gene>>
    requires k <= |courses| == |sections| == |dirs|
  {
    if k == 0 then Ok([])
    else match Individual(ids, dirs, courses, sections, draw, p, k - 1)
      case Err(e) => Err(e)
      case Ok(chrom) =>
        AddCourse(ids, dirs[k - 1], courses[k - 1], sections[k - 1], chrom, draw, p, k - 1)
  }

  /** Individual `p` of `initialize_population(_, instructors, courses)` after the first `k` courses. */
  function Initial(instructors: seq<Instructor>, courses: seq<Course>, sections: seq<nat>,
                   draw: (nat, nat, nat) -> nat, p: nat, k: nat): Result<seq<Gene>>
    requires k <= |courses| == |sections|
  {
    Individual(SectionIds(instructors), DirectorParts(instructors, courses, sections), courses, sections, draw, p, k)
  }

  /**
    * `initialize_population(num_individuals, instructors, courses)`, the
    * section id drawn for section `s` of course `j` in individual `p` being
    * `draw(p, j, s) % len(instructor_sections)`.
    */
  method InitializePopulation(num: nat, instructors: seq<Instructor>, courses: seq<Course>,
                              draw: (nat, nat, nat) -> nat) returns (r: Result<seq<seq<Gene>>>)
    ensures r.Ok? ==> |r.value| == num
    ensures r.Ok? ==> forall p :: 0 <= p < num ==>
      Initial(instructors, courses, SectionsOf(courses), draw, p, |courses|) == Ok(r.value[p])
    ensures r.Err? <==>
      exists p :: 0 <= p < num && Initial(instructors, courses, SectionsOf(courses), draw, p, |courses|).Err?
  {
    ghost var sections := SectionsOf(courses);
    var population := [];
    var p := 0;
    while p < num
      invariant p <= num && |population| == p && sections == SectionsOf(courses)
      invariant forall q :: 0 <= q < p ==> Initial(instructors, courses, sections, draw, q, |courses|) == Ok(population[q])
    {
      var chromosome := Breed(instructors, courses, sections, draw, p);
      if chromosome.Err? {
        return Err(chromosome.message);
      }
      population := population + [chromosome.value];
      p := p + 1;
    }
    r := Ok(population);
  }

  /** Lines 33-45: one individual, course by course. */
  method Breed(instructors: seq<Instructor>, courses: seq<Course>, ghost sections: seq<nat>, draw: (nat, nat, nat) -> nat, p: nat)
    returns (r: Result<seq<Gene>>)
    requires sections == SectionsOf(courses)
    ensures r == Initial(instructors, courses, sections, draw, p, |courses|)
    ensures SectionsOf(courses) == sections
  {
    var ids := SectionIds(instructors);
    var chromosome := [];
    var j := 0;
    assert Initial(instructors, courses, sections, draw, p, 0) == Ok([]);
    while j < |courses|
      invariant j <= |courses| && sections == SectionsOf(courses)
      invariant Initial(instructors, courses, sections, draw, p, j) == Ok(chromosome)
    {
      var next := BreedNext(instructors, ids, courses, sections, draw, p, j, chromosome);
      if next.Err? {
        assert SectionsOf(courses) == sections;
        InitialErrExtends(instructors, courses, sections, draw, p, j + 1);
        return next;
      }
      chromosome := next.value;
      j := j + 1;
    }
    r := Ok(chromosome);
  }

  /** A raised error ends the individual. */
  lemma InitialErrExtends(instructors: seq<Instructor>, courses: seq<Course>, sections: seq<nat>,
                          draw: (nat, nat, nat) -> nat, p: nat, k: nat)
    requires k <= |courses| == |sections|
    requires Initial(instructors, courses, sections, draw, p, k).Err?
    ensures Initial(instructors, courses, sections, draw, p, |courses|) == Initial(instructors, courses, sections, draw, p, k)
  {
    IndividualErrExtends(SectionIds(instructors), DirectorParts(instructors, courses, sections), courses, sections,
                         draw, p, k, |courses|);
  }

  /** One pass of line 34's loop: the individual grows by course `j`. */
  method BreedNext(instructors: seq<Instructor>, ids: seq<string>, courses: seq<Course>, ghost sections: seq<nat>,
                   draw: (nat, nat, nat) -> nat, p: nat, j: nat, chrom: seq<Gene>) returns (r: Result<seq<Gene>>)
    requires j < |courses| && ids == SectionIds(instructors) && sections == SectionsOf(courses)
    requires Initial(instructors, courses, sections, draw, p, j) == Ok(chrom)
    ensures r == Initial(instructors, courses, sections, draw, p, j + 1)
  {
    ghost var dirs := DirectorParts(instructors, courses, sections);
    r := BreedCourse(instructors, ids, courses[j], chrom, draw, p, j);
    assert dirs[j] == DirectorPart(instructors, courses[j], courses[j].sectionsAvailable);
    IndividualNext(ids, dirs, courses, sections, draw, p, j, chrom);
  }

  /** Lines 35-45 for one course, as loops appending to the chromosome. */
  method BreedCourse(instructors: seq<Instructor>, ids: seq<string>, course: Course, chrom: seq<Gene>,
                     draw: (nat, nat, nat) -> nat, p: nat, j: nat) returns (r: Result<seq<Gene>>)
    ensures r == AddCourse(ids, DirectorPart(instructors, course, course.sectionsAvailable), course,
                           course.sectionsAvailable, chrom, draw, p, j)
  {
    var chromosome := chrom;
    if course.courseDirector.Some? && course.courseDirector.value != "" {
      var found := LastInstructor(instructors, course.courseDirector.value);
      if found.Some? {
        chromosome := AddDirectorGenes(instructors[found.value], course, chromosome);
      }
    }
    assert chromosome == chrom + DirectorPart(instructors, course, course.sectionsAvailable);
    var rest := course.sectionsAvailable - CountPrefixed(chromosome, CoursePrefix(course.name));
    r := AddRandomGenes(ids, course, rest, chromosome, draw, p, j);
  }

  /** Lines 43-45: a loop appending `rest` random genes; drawing from no ids raises. */
  method AddRandomGenes(ids: seq<string>, course: Course, rest: int, chrom: seq<Gene>, draw: (nat, nat, nat) -> nat,
                        p: nat, j: nat) returns (r: Result<seq<Gene>>)
    ensures rest <= 0 ==> r == Ok(chrom)
    ensures rest > 0 && ids == [] ==> r == Err("cannot choose from an empty sequence")
    ensures rest > 0 && ids != [] ==> r == Ok(chrom + RandomGenes(ids, course, rest, draw, p, j))
  {
    var chromosome := chrom;
    var s := 0;
    while s < rest
      invariant 0 <= s <= if rest > 0 then rest else 0
      invariant ids == [] ==> s == 0 && chromosome == chrom
      invariant ids != [] ==> chromosome == chrom + RandomGenes(ids, course, s, draw, p, j)
    {
      if ids == [] {
        return Err("cannot choose from an empty sequence");
      }
      chromosome := chromosome + [(Choice(ids, draw(p, j, s)), SectionName(course.name, s + 1))];
      s := s + 1;
    }
    if rest <= 0 {
      assert chromosome == chrom;
    }
    r := Ok(chromosome);
  }

  /** Lines 39-40: a loop appending the director's genes. */
  method AddDirectorGenes(director: Instructor, course: Course, chrom: seq<Gene>) returns (chromosome: seq<Gene>)
    ensures chromosome == chrom + DirectorGenes(director, course, course.sectionsAvailable)
  {
    ghost var genes := DirectorGenes(director, course, course.sectionsAvailable);
    DirectorGenesAt(director, course, course.sectionsAvailable);
    chromosome := chrom;
    var s := 0;
    while s < Min(course.sectionsAvailable, director.maxClasses)
      invariant s <= |genes| && chromosome == chrom + genes[..s]
    {
      chromosome := chromosome + [(SectionName(director.name, s + 1), SectionName(course.name, s + 1))];
      assert genes[..s + 1] == genes[..s] + [genes[s]];
      s := s + 1;
    }
    assert genes[..s] == genes;
  }

  /** One more course: `AddCourse` applied to the individual so far. */
  lemma IndividualNext(ids: seq<string>, dirs: seq<seq<Gene>>, courses: seq<Course>, sections: seq<nat>,
                       draw: (nat, nat, nat) -> nat, p: nat, j: nat, chrom: seq<Gene>)
    requires j < |courses| == |sections| == |dirs|
    requires Individual(ids, dirs, courses, sections, draw, p, j) == Ok(chrom)
    ensures Individual(ids, dirs, courses, sections, draw, p, j + 1)
         == AddCourse(ids, dirs[j], courses[j], sections[j], chrom, draw, p, j)
  {
  }

  /** A raised error ends the individual: the error is passed on unchanged. */
  lemma {:induction false} IndividualErrExtends(ids: seq<string>, dirs: seq<seq<Gene>>, courses: seq<Course>,
                                                sections: seq<nat>, draw: (nat, nat, nat) -> nat, p: nat,
                                                k: nat, m: nat)
    requires k <= m <= |courses| == |sections| == |dirs|
    requires Individual(ids, dirs, courses, sections, draw, p, k).Err?
    ensures Individual(ids, dirs, courses, sections, draw, p, m) == Individual(ids, dirs, courses, sections, draw, p, k)
    decreases m
  {
    if k < m {
      IndividualErrExtends(ids, dirs, courses, sections, draw, p, k, m - 1);
    }
  }

  /** No course's section ids start with another course's prefix `f"{name}_section"`. */
  ghost predicate NoCrossPrefixes(courses: seq<Course>) {
    forall j, c, n {:trigger StartsWith(SectionName(courses[j].name, n), CoursePrefix(courses[c].name))} ::
      0 <= j < |courses| && 0 <= c < |courses| && j != c ==>
      !StartsWith(SectionName(courses[j].name, n), CoursePrefix(courses[c].name))
  }

  /** A course's own section ids start with its prefix. */
  lemma OwnPrefix(name: string, n: nat)
    ensures StartsWith(SectionName(name, n), CoursePrefix(name))
  {
    assert SectionName(name, n)[..|CoursePrefix(name)|] == CoursePrefix(name);
  }

  /** The section ids of one underscore-free name never start with the prefix of another. */
  lemma ForeignPrefix(a: string, b: string, n: nat)
    requires a != b && '_' !in a && '_' !in b
    ensures !StartsWith(SectionName(a, n), CoursePrefix(b))
  {
    var id, prefix := SectionName(a, n), CoursePrefix(b);
    if |prefix| <= |id| {
      var head := id[..|prefix|];
      if |b| < |a| {
        assert head[|b|] == a[|b|] && prefix[|b|] == '_';
      } else if |b| == |a| {
        assert head[..|b|] == a && prefix[..|b|] == b;
      } else {
        assert head[|a|] == '_' && prefix[|a|] == b[|a|];
      }
    }
  }

  /** Distinct course names without underscores never run into one another's prefix. */
  lemma UnderscoreFreeNoCrossPrefixes(courses: seq<Course>)
    requires DistinctCourseNames(courses)
    requires forall j :: 0 <= j < |courses| ==> '_' !in courses[j].name
    ensures NoCrossPrefixes(courses)
  {
    forall j, c, n | 0 <= j < |courses| && 0 <= c < |courses| && j != c
      ensures !StartsWith(SectionName(courses[j].name, n), CoursePrefix(courses[c].name))
    {
      assert courses[j].name != courses[c].name by {
        if j < c {} else {}
      }
      ForeignPrefix(courses[j].name, courses[c].name, n);
    }
  }

  /**
    * What `AddCourse` appends: the director's genes `d`, then `rnd`, one
    * gene for each section still uncovered, numbered from 1.
    */
  lemma AddCourseParts(ids: seq<string>, d: seq<Gene>, c: Course, sections: nat, chrom: seq<Gene>,
                       draw: (nat, nat, nat) -> nat, p: nat, j: nat)
    returns (rnd: seq<Gene>)
    requires AddCourse(ids, d, c, sections, chrom, draw, p, j).Ok?
    ensures AddCourse(ids, d, c, sections, chrom, draw, p, j).value == chrom + d + rnd
    ensures Numbered(rnd, c.name)
    ensures var rest := sections - CountPrefixed(chrom + d, CoursePrefix(c.name));
            |rnd| == if rest > 0 then rest else 0
  {
    var rest := sections - CountPrefixed(chrom + d, CoursePrefix(c.name));
    if rest > 0 {
      RandomGenesAt(ids, c, rest, draw, p, j);
      rnd := RandomGenes(ids, c, rest, draw, p, j);
    } else {
      rnd := [];
    }
  }

  /** Numbered genes of a course whose ids never start with `prefix` add nothing to its count. */
  lemma NumberedUncounted(genes: seq<Gene>, name: string, prefix: string)
    requires Numbered(genes, name)
    requires forall n :: !StartsWith(SectionName(name, n), prefix)
    ensures CountPrefixed(genes, prefix) == 0
  {
    assert forall s :: 0 <= s < |genes| ==> !StartsWith(genes[s].1, prefix);
    CountPrefixedNone(genes, prefix);
  }

  /** Numbered genes of a course all count towards its own prefix. */
  lemma NumberedCounted(genes: seq<Gene>, name: string)
    requires Numbered(genes, name)
    ensures CountPrefixed(genes, CoursePrefix(name)) == |genes|
  {
    forall s | 0 <= s < |genes|
      ensures StartsWith(genes[s].1, CoursePrefix(name))
    {
      OwnPrefix(name, s + 1);
    }
    CountPrefixedAll(genes, CoursePrefix(name));
  }

  /** A course whose ids never start with `prefix` adds nothing to the count of `prefix`. */
  lemma AddCourseUncounted(ids: seq<string>, d: seq<Gene>, c: Course, sections: nat,
                           chrom: seq<Gene>, draw: (nat, nat, nat) -> nat, p: nat, j: nat, prefix: string)
    requires Numbered(d, c.name)
    requires AddCourse(ids, d, c, sections, chrom, draw, p, j).Ok?
    requires forall n :: !StartsWith(SectionName(c.name, n), prefix)
    ensures CountPrefixed(AddCourse(ids, d, c, sections, chrom, draw, p, j).value, prefix)
         == CountPrefixed(chrom, prefix)
  {
    var rnd := AddCourseParts(ids, d, c, sections, chrom, draw, p, j);
    NumberedUncounted(d, c.name, prefix);
    NumberedUncounted(rnd, c.name, prefix);
    CountPrefixedAppend(chrom, d, prefix);
    CountPrefixedAppend(chrom + d, rnd, prefix);
  }

  /** Under `NoCrossPrefixes`, the first `k` courses leave no gene that counts for a later course. */
  lemma {:induction false} LaterCoursesUncounted(ids: seq<string>, dirs: seq<seq<Gene>>, courses: seq<Course>,
                                                  sections: seq<nat>, draw: (nat, nat, nat) -> nat, p: nat,
                                                  k: nat, c: nat)
    requires k <= c < |courses|
    requires NoCrossPrefixes(courses) && DirectorsFit(dirs, courses, sections)
    requires Individual(ids, dirs, courses, sections, draw, p, k).Ok?
    ensures CountPrefixed(Individual(ids, dirs, courses, sections, draw, p, k).value, CoursePrefix(courses[c].name)) == 0
  {
    if k > 0 {
      var before := Individual(ids, dirs, courses, sections, draw, p, k - 1).value;
      LaterCoursesUncounted(ids, dirs, courses, sections, draw, p, k - 1, c);
      IndividualNext(ids, dirs, courses, sections, draw, p, k - 1, before);
      AddCourseUncounted(ids, dirs[k - 1], courses[k - 1], sections[k - 1], before, draw, p,
                         k - 1, CoursePrefix(courses[c].name));
    }
  }

  /**
    * Lines 35-45, under `NoCrossPrefixes`: course `j` appends exactly its
    * `sections_available` genes, first the director's genes, then `rnd`,
    * genes for the rest of its sections numbered from 1.
    */
  lemma CourseBlock(ids: seq<string>, dirs: seq<seq<Gene>>, courses: seq<Course>, sections: seq<nat>,
                    draw: (nat, nat, nat) -> nat, p: nat, j: nat, before: seq<Gene>)
    returns (rnd: seq<Gene>)
    requires j < |courses|
    requires NoCrossPrefixes(courses) && DirectorsFit(dirs, courses, sections)
    requires Individual(ids, dirs, courses, sections, draw, p, j) == Ok(before)
    requires Individual(ids, dirs, courses, sections, draw, p, j + 1).Ok?
    ensures Individual(ids, dirs, courses, sections, draw, p, j + 1).value == before + dirs[j] + rnd
    ensures |dirs[j]| + |rnd| == sections[j]
    ensures Numbered(rnd, courses[j].name)
  {
    var c := courses[j];
    IndividualNext(ids, dirs, courses, sections, draw, p, j, before);
    LaterCoursesUncounted(ids, dirs, courses, sections, draw, p, j, j);
    NumberedCounted(dirs[j], c.name);
    CountPrefixedAppend(before, dirs[j], CoursePrefix(c.name));
    rnd := AddCourseParts(ids, dirs[j], c, sections[j], before, draw, p, j);
  }

  lemma {:induction false} SumSnoc(s: seq<nat>, x: nat)
    ensures Sum(s + [x]) == Sum(s) + x
  {
    if s != [] {
      SumSnoc(s[1..], x);
      assert (s + [x])[1..] == s[1..] + [x];
    }
  }

  lemma SumPrefixStep(s: seq<nat>, k: nat)
    requires 0 < k <= |s|
    ensures Sum(s[..k]) == Sum(s[..k - 1]) + s[k - 1]
  {
    SumSnoc(s[..k - 1], s[k - 1]);
    assert s[..k] == s[..k - 1] + [s[k - 1]];
  }

  /** Under `NoCrossPrefixes`, the first `k` courses give `Σ sections_available` genes. */
  lemma {:induction false} IndividualLength(ids: seq<string>, dirs: seq<seq<Gene>>, courses: seq<Course>,
                                            sections: seq<nat>, draw: (nat, nat, nat) -> nat, p: nat,
                                            k: nat, chrom: seq<Gene>)
    requires k <= |courses|
    requires NoCrossPrefixes(courses) && DirectorsFit(dirs, courses, sections)
    requires Individual(ids, dirs, courses, sections, draw, p, k) == Ok(chrom)
    ensures |chrom| == Sum(sections[..k])
  {
    if k > 0 {
      var before := Individual(ids, dirs, courses, sections, draw, p, k - 1).value;
      IndividualLength(ids, dirs, courses, sections, draw, p, k - 1, before);
      var rnd := CourseBlock(ids, dirs, courses, sections, draw, p, k - 1, before);
      SumPrefixStep(sections, k);
    }
  }

  /**
    * Lines 32-47, under `NoCrossPrefixes`: every individual has one gene per
    * remaining course section.
    */
  lemma IndividualSize(instructors: seq<Instructor>, courses: seq<Course>, sections: seq<nat>,
                       draw: (nat, nat, nat) -> nat, p: nat)
    requires |courses| == |sections|
    requires NoCrossPrefixes(courses)
    requires Initial(instructors, courses, sections, draw, p, |courses|).Ok?
    ensures |Initial(instructors, courses, sections, draw, p, |courses|).value| == Sum(sections)
  {
    DirectorPartsFit(instructors, courses, sections);
    IndividualLength(SectionIds(instructors), DirectorParts(instructors, courses, sections), courses, sections,
                     draw, p, |courses|, Initial(instructors, courses, sections, draw, p, |courses|).value);
    assert sections[..|courses|] == sections;
  }

  /** No section ids means no instructor has a class. */
  lemma {:induction false} NoSectionIds(instructors: seq<Instructor>)
    requires SectionIds(instructors) == []
    ensures forall i :: 0 <= i < |instructors| ==> instructors[i].maxClasses == 0
  {
    if instructors != [] {
      var n := |instructors| - 1;
      assert AllSections(instructors) == AllSections(instructors[..n]) + OwnSections(instructors[n], n);
      assert SectionIds(instructors[..n]) == [];
      NoSectionIds(instructors[..n]);
      assert forall i :: 0 <= i < n ==> instructors[..n][i] == instructors[i];
    }
  }

  /** With no section ids, no director has a gene to give. */
  lemma NoDirectorGenes(instructors: seq<Instructor>, courses: seq<Course>, sections: seq<nat>)
    requires |courses| == |sections|
    requires SectionIds(instructors) == []
    ensures forall j :: 0 <= j < |courses| ==> DirectorParts(instructors, courses, sections)[j] == []
  {
    NoSectionIds(instructors);
  }

  /**
    * With no ids to draw from and no director genes, the first `k` courses
    * raise exactly when one of them has a section left; until then the
    * individual stays empty.
    */
  lemma {:induction false} EmptyIndividual(dirs: seq<seq<Gene>>, courses: seq<Course>, sections: seq<nat>,
                                           draw: (nat, nat, nat) -> nat, p: nat, k: nat)
    requires k <= |courses| == |sections| == |dirs|
    requires forall j :: 0 <= j < |dirs| ==> dirs[j] == []
    ensures Individual([], dirs, courses, sections, draw, p, k).Err? <==> exists j :: 0 <= j < k && sections[j] > 0
    ensures (forall j :: 0 <= j < k ==> sections[j] == 0) ==> Individual([], dirs, courses, sections, draw, p, k) == Ok([])
  {
    if k > 0 {
      EmptyIndividual(dirs, courses, sections, draw, p, k - 1);
      var prev := Individual([], dirs, courses, sections, draw, p, k - 1);
      if prev.Err? {
        IndividualErrExtends([], dirs, courses, sections, draw, p, k - 1, k);
      } else {
        IndividualNext([], dirs, courses, sections, draw, p, k - 1, prev.value);
        assert CountPrefixed([] + dirs[k - 1], CoursePrefix(courses[k - 1].name)) == 0;
        if sections[k - 1] > 0 {
          assert 0 <= k - 1 < k && sections[k - 1] > 0;
        }
      }
    }
  }

  /**
    * Line 44: `random.choice` raises exactly when the instructors have no
    * section ids and some course has a section left.
    */
  lemma IndividualFails(instructors: seq<Instructor>, courses: seq<Course>, sections: seq<nat>,
                        draw: (nat, nat, nat) -> nat, p: nat)
    requires |courses| == |sections|
    ensures Initial(instructors, courses, sections, draw, p, |courses|).Err?
        <==> SectionIds(instructors) == [] && exists j :: 0 <= j < |courses| && sections[j] > 0
  {
    var ids, dirs := SectionIds(instructors), DirectorParts(instructors, courses, sections);
    if ids == [] {
      NoDirectorGenes(instructors, courses, sections);
      EmptyIndividual(dirs, courses, sections, draw, p, |courses|);
    } else {
      NeverFails(ids, dirs, courses, sections, draw, p, |courses|);
    }
  }

  /** With section ids to draw from, no course raises. */
  lemma {:induction false} NeverFails(ids: seq<string>, dirs: seq<seq<Gene>>, courses: seq<Course>,
                                      sections: seq<nat>, draw: (nat, nat, nat) -> nat, p: nat, k: nat)
    requires k <= |courses| == |sections| == |dirs|
    requires ids != []
    ensures Individual(ids, dirs, courses, sections, draw, p, k).Ok?
  {
    if k > 0 {
      NeverFails(ids, dirs, courses, sections, draw, p, k - 1);
    }
  }
}
