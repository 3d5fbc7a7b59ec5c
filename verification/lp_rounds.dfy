/**
  * The rounds of the linear-programming solver
  * (`jobmatch/linear_program_optimization.py`): each round offers the
  * eligible sections and open courses to the program, commits what it chose,
  * and the solver stops when nothing is eligible or a round commits nothing;
  * a post-fill then hands out what is left, course by course.
  */
module LinearProgramRounds {
  import opened Wrappers
  import opened Text
  import opened Entities
  import opened LinearProgram

  /**
    * No pair the program chose for section `s` among the first `t` eligible
    * courses could be taught: the section's instructor fails `can_teach` for
    * each of them.
    */
  predicate IdleUpTo(instructors: seq<Instructor>, lists: seq<seq<string>>, uniques: seq<set<string>>,
                     s: Section, eCourses: seq<Course>, choose: (nat, string, string) -> bool, round: nat, t: nat)
    requires |lists| == |uniques| == |instructors| && t <= |eCourses|
  {
    s.owner < |instructors| ==>
      forall u :: 0 <= u < t && choose(round, s.name, eCourses[u].name) ==>
        var inst := instructors[s.owner];
        !Teachable(|lists[s.owner]|, uniques[s.owner], inst.maxClasses, inst.degree, eCourses[u].name)
  }

  /** One more eligible course that was not chosen, or could not be taught. */
  lemma IdleUpToNext(instructors: seq<Instructor>, lists: seq<seq<string>>, uniques: seq<set<string>>,
                     s: Section, eCourses: seq<Course>, choose: (nat, string, string) -> bool, round: nat, t: nat)
    requires |lists| == |uniques| == |instructors| && t < |eCourses|
    requires IdleUpTo(instructors, lists, uniques, s, eCourses, choose, round, t)
    requires s.owner < |instructors| && choose(round, s.name, eCourses[t].name) ==>
      var inst := instructors[s.owner];
      !Teachable(|lists[s.owner]|, uniques[s.owner], inst.maxClasses, inst.degree, eCourses[t].name)
    ensures IdleUpTo(instructors, lists, uniques, s, eCourses, choose, round, t + 1)
  {
  }

  /** No pair the program chose for section `s` this round could be taught. */
  predicate SectionIdle(instructors: seq<Instructor>, lists: seq<seq<string>>, uniques: seq<set<string>>,
                        s: Section, eCourses: seq<Course>, choose: (nat, string, string) -> bool, round: nat)
    requires |lists| == |uniques| == |instructors|
  {
    IdleUpTo(instructors, lists, uniques, s, eCourses, choose, round, |eCourses|)
  }

  /** The first `k` eligible sections were idle this round. */
  predicate IdleSections(instructors: seq<Instructor>, lists: seq<seq<string>>, uniques: seq<set<string>>,
                         eSections: seq<Section>, eCourses: seq<Course>, choose: (nat, string, string) -> bool,
                         round: nat, k: nat)
    requires |lists| == |uniques| == |instructors| && k <= |eSections|
  {
    forall q :: 0 <= q < k ==> SectionIdle(instructors, lists, uniques, eSections[q], eCourses, choose, round)
  }

  /** One more idle section. */
  lemma IdleSectionsNext(instructors: seq<Instructor>, lists: seq<seq<string>>, uniques: seq<set<string>>,
                         eSections: seq<Section>, eCourses: seq<Course>, choose: (nat, string, string) -> bool,
                         round: nat, k: nat)
    requires |lists| == |uniques| == |instructors| && k < |eSections|
    requires IdleSections(instructors, lists, uniques, eSections, eCourses, choose, round, k)
    requires SectionIdle(instructors, lists, uniques, eSections[k], eCourses, choose, round)
    ensures IdleSections(instructors, lists, uniques, eSections, eCourses, choose, round, k + 1)
  {
  }

  /** Every eligible section was idle this round. */
  predicate RoundIdle(instructors: seq<Instructor>, lists: seq<seq<string>>, uniques: seq<set<string>>,
                      eSections: seq<Section>, eCourses: seq<Course>, choose: (nat, string, string) -> bool, round: nat)
    requires |lists| == |uniques| == |instructors|
  {
    IdleSections(instructors, lists, uniques, eSections, eCourses, choose, round, |eSections|)
  }

  /**
    * Lines 108-119 for the chosen course at position `t`: look it up by name
    * among the eligible courses and commit it to instructor `i`. Nothing
    * changes when nothing was granted, and then, if the looked-up course had
    * a section left, the instructor could not teach it.
    */
  method TryChosen(instructors: seq<Instructor>, courses: seq<Course>, eCourses: seq<Course>, i: nat, t: nat,
                   ghost start: Start, ghost lists: seq<seq<string>>, ghost uniques: seq<set<string>>,
                   ghost sections: seq<nat>)
    returns (granted: nat)
    requires Fits(start, instructors, courses) && i < |instructors| && t < |eCourses|
    requires DistinctInstructorNames(instructors) && DistinctRecords(courses)
    requires forall u :: 0 <= u < |eCourses| ==> eCourses[u] in courses
    requires RunState(instructors, courses, start)
    requires lists == AssignedLists(instructors) && uniques == UniqueSets(instructors)
    requires sections == SectionsOf(courses)
    modifies instructors[i], courses
    ensures RunState(instructors, courses, start)
    ensures Sum(SectionsOf(courses)) + granted == Sum(sections)
    ensures granted == 0 ==> && AssignedLists(instructors) == lists && UniqueSets(instructors) == uniques
                             && SectionsOf(courses) == sections
    ensures granted == 0 && old(forall u :: 0 <= u < |eCourses| ==> eCourses[u].sectionsAvailable > 0) ==>
      && (forall u :: 0 <= u < |eCourses| ==> eCourses[u].sectionsAvailable > 0)
      && !Teachable(|lists[i]|, uniques[i], instructors[i].maxClasses, instructors[i].degree, eCourses[t].name)
  {
    var course := eCourses[FindCourse(eCourses, eCourses[t].name).value];
    ghost var j :| 0 <= j < |courses| && courses[j] == course;
    ghost var could := instructors[i].CanTeach(course.name);
    assert could <==> Teachable(|lists[i]|, uniques[i], instructors[i].maxClasses, instructors[i].degree,
                                eCourses[t].name);
    granted := Commit(instructors, courses, i, course, j, start, lists, uniques, sections);
  }

  /**
    * Lines 107-120 for one eligible section: each eligible course the program
    * chose for it, in eligible order, is looked up by name among the eligible
    * courses (`next`, so the first of that name) and committed when the
    * instructor can still teach it and a section is left. Every eligible
    * course has a section left when the round starts, so a section that
    * committed nothing changed nothing and was idle.
    */
  method CommitSection(instructors: seq<Instructor>, courses: seq<Course>, eCourses: seq<Course>, section: Section,
                       round: nat, choose: (nat, string, string) -> bool, ghost start: Start)
    returns (made: bool)
    requires Fits(start, instructors, courses) && section.owner < |instructors|
    requires DistinctInstructorNames(instructors) && DistinctRecords(courses)
    requires forall t :: 0 <= t < |eCourses| ==> eCourses[t] in courses
    requires RunState(instructors, courses, start)
    modifies instructors[section.owner], courses
    ensures RunState(instructors, courses, start)
    ensures Sum(SectionsOf(courses)) <= old(Sum(SectionsOf(courses)))
    ensures made ==> Sum(SectionsOf(courses)) < old(Sum(SectionsOf(courses)))
    ensures !made ==> && AssignedLists(instructors) == old(AssignedLists(instructors))
                      && UniqueSets(instructors) == old(UniqueSets(instructors))
                      && SectionsOf(courses) == old(SectionsOf(courses))
    ensures !made && old(forall t :: 0 <= t < |eCourses| ==> eCourses[t].sectionsAvailable > 0) ==>
      && (forall t :: 0 <= t < |eCourses| ==> eCourses[t].sectionsAvailable > 0)
      && SectionIdle(instructors, old(AssignedLists(instructors)), old(UniqueSets(instructors)), section,
                     eCourses, choose, round)
  {
    var i := section.owner;
    ghost var lists, uniques, sections := AssignedLists(instructors), UniqueSets(instructors), SectionsOf(courses);
    ghost var open := forall t :: 0 <= t < |eCourses| ==> eCourses[t].sectionsAvailable > 0;
    made := false;
    for t := 0 to |eCourses|
      invariant RunState(instructors, courses, start)
      invariant Sum(SectionsOf(courses)) <= Sum(sections)
      invariant made ==> Sum(SectionsOf(courses)) < Sum(sections)
      invariant !made ==> && AssignedLists(instructors) == lists && UniqueSets(instructors) == uniques
                          && SectionsOf(courses) == sections
      invariant !made && open ==> forall u :: 0 <= u < |eCourses| ==> eCourses[u].sectionsAvailable > 0
      invariant !made && open ==> IdleUpTo(instructors, lists, uniques, section, eCourses, choose, round, t)
    {
      if choose(round, section.name, eCourses[t].name) {
        ghost var lists', uniques', sections' := AssignedLists(instructors), UniqueSets(instructors), SectionsOf(courses);
        var granted := TryChosen(instructors, courses, eCourses, i, t, start, lists', uniques', sections');
        if granted > 0 {
          made := true;
        } else if !made && open {
          assert lists' == lists && uniques' == uniques;
          IdleUpToNext(instructors, lists, uniques, section, eCourses, choose, round, t);
        }
      } else if !made && open {
        IdleUpToNext(instructors, lists, uniques, section, eCourses, choose, round, t);
      }
    }
  }

  /**
    * Lines 104-120: commit the chosen pairs of every eligible section in
    * turn. `made` is `assignments_made`: when it stays false nothing changed
    * and the round was idle.
    */
  method CommitRound(instructors: seq<Instructor>, courses: seq<Course>, eSections: seq<Section>,
                     eCourses: seq<Course>, round: nat, choose: (nat, string, string) -> bool, ghost start: Start)
    returns (made: bool)
    requires Fits(start, instructors, courses)
    requires DistinctInstructorNames(instructors) && DistinctRecords(courses)
    requires Owned(eSections, |instructors|)
    requires forall t :: 0 <= t < |eCourses| ==> eCourses[t] in courses && eCourses[t].sectionsAvailable > 0
    requires RunState(instructors, courses, start)
    modifies instructors, courses
    ensures RunState(instructors, courses, start)
    ensures Sum(SectionsOf(courses)) <= old(Sum(SectionsOf(courses)))
    ensures made ==> Sum(SectionsOf(courses)) < old(Sum(SectionsOf(courses)))
    ensures !made ==> && AssignedLists(instructors) == old(AssignedLists(instructors))
                      && UniqueSets(instructors) == old(UniqueSets(instructors))
                      && SectionsOf(courses) == old(SectionsOf(courses))
    ensures !made ==> RoundIdle(instructors, AssignedLists(instructors), UniqueSets(instructors), eSections, eCourses,
                                choose, round)
  {
    ghost var lists, uniques, sections := AssignedLists(instructors), UniqueSets(instructors), SectionsOf(courses);
    made := false;
    for k := 0 to |eSections|
      invariant RunState(instructors, courses, start)
      invariant Sum(SectionsOf(courses)) <= Sum(sections)
      invariant made ==> Sum(SectionsOf(courses)) < Sum(sections)
      invariant !made ==> && AssignedLists(instructors) == lists && UniqueSets(instructors) == uniques
                          && SectionsOf(courses) == sections
      invariant !made ==> forall t :: 0 <= t < |eCourses| ==> eCourses[t].sectionsAvailable > 0
      invariant !made ==> IdleSections(instructors, lists, uniques, eSections, eCourses, choose, round, k)
    {
      var sectionMade := CommitSection(instructors, courses, eCourses, eSections[k], round, choose, start);
      if !made && !sectionMade {
        IdleSectionsNext(instructors, lists, uniques, eSections, eCourses, choose, round, k);
      }
      made := made || sectionMade;
    }
  }

  /**
    * The loop of lines 40-127 has stopped: no section is eligible, no course
    * has a section left, or the last round (`round`) committed nothing.
    */
  predicate LPStopped(instructors: seq<Instructor>, lists: seq<seq<string>>, uniques: seq<set<string>>,
                      courses: seq<Course>, left: seq<nat>, sections: seq<Section>,
                      choose: (nat, string, string) -> bool, round: nat)
    requires |lists| == |uniques| == |instructors| && |left| == |courses|
  {
    var eSections := EligibleSections(instructors, lists, uniques, sections);
    var eCourses := Open(courses, left);
    eSections == [] || eCourses == [] || RoundIdle(instructors, lists, uniques, eSections, eCourses, choose, round)
  }

  /**
    * Lines 40-127: rounds of eligibility, optimisation and commitment until
    * nothing is eligible or a round commits nothing. Every round that goes on
    * has taken at least one section, so the loop ends.
    */
  method Rounds(instructors: seq<Instructor>, courses: seq<Course>, sections: seq<Section>,
                choose: (nat, string, string) -> bool, ghost start: Start)
    returns (rounds: nat)
    requires Fits(start, instructors, courses)
    requires DistinctInstructorNames(instructors) && DistinctRecords(courses)
    requires Owned(sections, |instructors|)
    requires RunState(instructors, courses, start)
    modifies instructors, courses
    ensures RunState(instructors, courses, start)
    ensures rounds >= 1
    ensures LPStopped(instructors, AssignedLists(instructors), UniqueSets(instructors), courses, SectionsOf(courses),
                      sections, choose, rounds)
  {
    rounds := 0;
    while true
      invariant RunState(instructors, courses, start)
      decreases Sum(SectionsOf(courses))
    {
      rounds := rounds + 1;
      var eSections := EligibleSections(instructors, AssignedLists(instructors), UniqueSets(instructors), sections);
      var eCourses := OpenCourses(courses);
      if eSections == [] || eCourses == [] {
        return;
      }
      EligibleSectionsSound(instructors, AssignedLists(instructors), UniqueSets(instructors), sections);
      OpenCoursesSpec(courses);
      var made := CommitRound(instructors, courses, eSections, eCourses, rounds, choose, start);
      if !made {
        return;
      }
    }
  }

  /** Whether `inst`, at `list` and `unique`, passes the post-fill filter for `course`: room left and `can_teach`. */
  predicate Able(inst: Instructor, list: seq<string>, unique: set<string>, course: string)
    reads inst
  {
    |list| < inst.maxClasses && Teachable(|list|, unique, inst.maxClasses, inst.degree, course)
  }

  /** No section's instructor passes the post-fill filter for `course`. */
  predicate NoneAble(instructors: seq<Instructor>, lists: seq<seq<string>>, uniques: seq<set<string>>,
                     sections: seq<Section>, course: string)
    requires |lists| == |uniques| == |instructors| && Owned(sections, |instructors|)
    reads instructors
  {
    forall q :: 0 <= q < |sections| ==>
      !Able(instructors[sections[q].owner], lists[sections[q].owner], uniques[sections[q].owner], course)
  }

  /**
    * `available_instructors[0]` of lines 132-136: the position of the first
    * section whose instructor passes the filter, if any.
    */
  function FirstAvailable(instructors: seq<Instructor>, lists: seq<seq<string>>, uniques: seq<set<string>>,
                          sections: seq<Section>, course: string): (r: Option<nat>)
    requires |lists| == |uniques| == |instructors| && Owned(sections, |instructors|)
    reads instructors
    ensures r.Some? ==> r.value < |sections|
    ensures r.Some? ==> var o := sections[r.value].owner; Able(instructors[o], lists[o], uniques[o], course)
    ensures r.Some? ==> forall q :: 0 <= q < r.value ==>
      !Able(instructors[sections[q].owner], lists[sections[q].owner], uniques[sections[q].owner], course)
    ensures r.None? <==> NoneAble(instructors, lists, uniques, sections, course)
  {
    if sections == [] then None
    else if Able(instructors[sections[0].owner], lists[sections[0].owner], uniques[sections[0].owner], course) then Some(0)
    else match FirstAvailable(instructors, lists, uniques, sections[1..], course)
      case None => None
      case Some(q) => Some(q + 1)
  }

  /** Every course before `j` is full, or no section's instructor passes the filter for it. */
  predicate FilledBefore(instructors: seq<Instructor>, lists: seq<seq<string>>, uniques: seq<set<string>>,
                         courses: seq<Course>, left: seq<nat>, sections: seq<Section>, j: nat)
    requires |lists| == |uniques| == |instructors| && Owned(sections, |instructors|)
    requires |left| == |courses| && j <= |courses|
    reads instructors, courses
  {
    forall c :: 0 <= c < j ==> left[c] == 0 || NoneAble(instructors, lists, uniques, sections, courses[c].name)
  }

  /**
    * Giving one section of `course` to instructor `o` makes no one able to
    * take a course nobody could take before: a longer list and a larger set
    * of courses only close the filter.
    */
  lemma {:induction false} NoneAbleGrant(instructors: seq<Instructor>, lists: seq<seq<string>>,
                                         uniques: seq<set<string>>, sections: seq<Section>,
                                         other: string, o: nat, course: string)
    requires |lists| == |uniques| == |instructors| && Owned(sections, |instructors|) && o < |instructors|
    requires Able(instructors[o], lists[o], uniques[o], course)
    requires NoneAble(instructors, lists, uniques, sections, other)
    ensures NoneAble(instructors, lists[o := lists[o] + Repeat(course, 1)], uniques[o := uniques[o] + {course}],
                     sections, other)
  {
    var lists', uniques' := lists[o := lists[o] + Repeat(course, 1)], uniques[o := uniques[o] + {course}];
    forall q | 0 <= q < |sections|
      ensures !Able(instructors[sections[q].owner], lists'[sections[q].owner], uniques'[sections[q].owner], other)
    {
      var p := sections[q].owner;
      assert !Able(instructors[p], lists[p], uniques[p], other);
      if p == o {
        assert |lists'[p]| == |lists[p]| + 1;
        assert uniques[p] <= uniques'[p];
        if |uniques[p]| >= 2 {
          assert |uniques'[p]| >= 2 by { SubsetCard(uniques[p], uniques'[p]); }
          assert other !in uniques[p];
          assert course in uniques[p];
          assert uniques'[p] == uniques[p];
        }
      }
    }
  }

  /** `|a| <= |b|` for `a <= b`. */
  lemma SubsetCard(a: set<string>, b: set<string>)
    requires a <= b
    ensures |a| <= |b|
  {
    assert b == a + (b - a);
  }

  /** One more section granted to an able instructor keeps the courses before `j` filled. */
  lemma FilledGrant(instructors: seq<Instructor>, lists: seq<seq<string>>, uniques: seq<set<string>>,
                    courses: seq<Course>, left: seq<nat>, sections: seq<Section>, j: nat, o: nat, v: nat)
    requires |lists| == |uniques| == |instructors| && Owned(sections, |instructors|) && o < |instructors|
    requires |left| == |courses| && j < |courses|
    requires Able(instructors[o], lists[o], uniques[o], courses[j].name)
    requires FilledBefore(instructors, lists, uniques, courses, left, sections, j)
    ensures FilledBefore(instructors, lists[o := lists[o] + Repeat(courses[j].name, 1)],
                         uniques[o := uniques[o] + {courses[j].name}], courses, left[j := v], sections, j)
  {
    forall c | 0 <= c < j && left[c] != 0
      ensures NoneAble(instructors, lists[o := lists[o] + Repeat(courses[j].name, 1)],
                       uniques[o := uniques[o] + {courses[j].name}], sections, courses[c].name)
    {
      NoneAbleGrant(instructors, lists, uniques, sections, courses[c].name, o, courses[j].name);
    }
  }

  /**
    * Lines 130-141: for each course in turn, while a section is left, give
    * one to the instructor of the first section that passes the filter; stop
    * at a course when no one passes. Afterwards every course is full or no
    * section's instructor can take it.
    */
  method PostFill(instructors: seq<Instructor>, courses: seq<Course>, sections: seq<Section>, ghost start: Start)
    requires Fits(start, instructors, courses)
    requires DistinctInstructorNames(instructors) && DistinctRecords(courses)
    requires Owned(sections, |instructors|)
    requires RunState(instructors, courses, start)
    modifies instructors, courses
    ensures RunState(instructors, courses, start)
    ensures FilledBefore(instructors, AssignedLists(instructors), UniqueSets(instructors), courses, SectionsOf(courses),
                         sections, |courses|)
  {
    for j := 0 to |courses|
      invariant RunState(instructors, courses, start)
      invariant FilledBefore(instructors, AssignedLists(instructors), UniqueSets(instructors), courses,
                             SectionsOf(courses), sections, j)
    {
      var course := courses[j];
      var full := false;
      while course.sectionsAvailable > 0 && !full
        invariant RunState(instructors, courses, start)
        invariant FilledBefore(instructors, AssignedLists(instructors), UniqueSets(instructors), courses,
                               SectionsOf(courses), sections, j)
        invariant full ==> NoneAble(instructors, AssignedLists(instructors), UniqueSets(instructors), sections,
                                    course.name)
        decreases course.sectionsAvailable, !full
      {
        var lists, uniques, left := AssignedLists(instructors), UniqueSets(instructors), SectionsOf(courses);
        var first := FirstAvailable(instructors, lists, uniques, sections, course.name);
        if first.None? {
          full := true;
        } else {
          var i := sections[first.value].owner;
          // the filter has already established room and `can_teach`
          var granted := Commit(instructors, courses, i, course, j, start, lists, uniques, left);
          FilledGrant(instructors, lists, uniques, courses, left, sections, j, i, course.sectionsAvailable);
        }
      }
    }
  }

  /**
    * A course no section's instructor can take is one no instructor can
    * take: every instructor with room left owns a section, the first one.
    */
  lemma NoneAbleAll(instructors: seq<Instructor>, lists: seq<seq<string>>, uniques: seq<set<string>>, course: string)
    requires |lists| == |uniques| == |instructors| && Owned(AllSections(instructors), |instructors|)
    requires NoneAble(instructors, lists, uniques, AllSections(instructors), course)
    ensures forall i :: 0 <= i < |instructors| ==> !Able(instructors[i], lists[i], uniques[i], course)
  {
    SectionsComplete(instructors);
    forall i | 0 <= i < |instructors| && 1 <= instructors[i].maxClasses
      ensures !Able(instructors[i], lists[i], uniques[i], course)
    {
      var s := Section(SectionName(instructors[i].name, 1), i, 1);
      assert s in AllSections(instructors);
      var q :| 0 <= q < |AllSections(instructors)| && AllSections(instructors)[q] == s;
    }
  }

  /** What the solver's running state says about each record against the start. */
  lemma RunStateMeans(instructors: seq<Instructor>, courses: seq<Course>, start: Start)
    requires Fits(start, instructors, courses)
    requires RunState(instructors, courses, start)
    ensures forall j :: 0 <= j < |courses| ==>
      && Conserved(start.rosters[j], start.sections[j], courses[j].assignedInstructors, courses[j].sectionsAvailable)
      && AllIn(courses[j].assignedInstructors[|start.rosters[j]|..], InstructorNames(instructors))
    ensures forall i :: 0 <= i < |instructors| ==>
      && start.lists[i] <= instructors[i].assignedCourses
      && var added := instructors[i].assignedCourses[|start.lists[i]|..];
         && instructors[i].uniqueCourses == start.uniques[i] + Elems(added)
         && AllIn(added, CourseNames(courses))
         && (start.valid[i] ==> instructors[i].Valid())
  {
    var lists := AssignedLists(instructors);
    var gains := Gains(lists, start.lists);
    forall i | 0 <= i < |instructors|
      ensures AllIn(instructors[i].assignedCourses[|start.lists[i]|..], CourseNames(courses))
    {
      assert gains[i] == instructors[i].assignedCourses[|start.lists[i]|..];
    }
  }

  /**
    * After the post-fill, every course is full or no instructor can take it:
    * each instructor with room owns a section, so the filter saw them all.
    */
  lemma FilledMeans(instructors: seq<Instructor>, courses: seq<Course>)
    requires Owned(AllSections(instructors), |instructors|)
    requires FilledBefore(instructors, AssignedLists(instructors), UniqueSets(instructors), courses, SectionsOf(courses),
                          AllSections(instructors), |courses|)
    ensures forall j :: 0 <= j < |courses| ==>
      courses[j].sectionsAvailable == 0 || forall i :: 0 <= i < |instructors| ==> !instructors[i].CanTeach(courses[j].name)
  {
    var lists, uniques := AssignedLists(instructors), UniqueSets(instructors);
    forall j | 0 <= j < |courses| && courses[j].sectionsAvailable != 0
      ensures forall i :: 0 <= i < |instructors| ==> !instructors[i].CanTeach(courses[j].name)
    {
      assert SectionsOf(courses)[j] != 0;
      NoneAbleAll(instructors, lists, uniques, courses[j].name);
      forall i | 0 <= i < |instructors|
        ensures !instructors[i].CanTeach(courses[j].name)
      {
        assert !Able(instructors[i], lists[i], uniques[i], courses[j].name);
      }
    }
  }

  /**
    * `iterative_linear_programming_solver(instructors, courses)` with
    * `choose` standing for the program's solutions. Each course's list grows
    * by instructor names exactly as its remaining sections shrink; each
    * instructor's list only grows, by catalog courses, and a valid record
    * stays valid (within both caps); after the post-fill, every course is
    * full or no instructor can take it.
    */
  method IterativeLinearProgrammingSolver(instructors: seq<Instructor>, courses: seq<Course>,
                                          choose: (nat, string, string) -> bool)
    requires DistinctInstructorNames(instructors)
    requires DistinctRecords(courses)
    modifies instructors, courses
    ensures forall j :: 0 <= j < |courses| ==>
      && Conserved(old(courses[j].assignedInstructors), old(courses[j].sectionsAvailable),
                   courses[j].assignedInstructors, courses[j].sectionsAvailable)
      && AllIn(courses[j].assignedInstructors[old(|courses[j].assignedInstructors|)..], InstructorNames(instructors))
    ensures forall i :: 0 <= i < |instructors| ==>
      && old(instructors[i].assignedCourses) <= instructors[i].assignedCourses
      && var added := instructors[i].assignedCourses[old(|instructors[i].assignedCourses|)..];
         && instructors[i].uniqueCourses == old(instructors[i].uniqueCourses) + Elems(added)
         && AllIn(added, CourseNames(courses))
         && (old(instructors[i].Valid()) ==> instructors[i].Valid())
    ensures forall j :: 0 <= j < |courses| ==>
      courses[j].sectionsAvailable == 0 || forall i :: 0 <= i < |instructors| ==> !instructors[i].CanTeach(courses[j].name)
  {
    ghost var start := Snapshot(instructors, courses);
    RunStateAtStart(instructors, courses);
    var sections := SplitIntoSections(instructors);
    SectionsSound(instructors);
    var rounds := Rounds(instructors, courses, sections, choose, start);
    PostFill(instructors, courses, sections, start);
    RunStateMeans(instructors, courses, start);
    FilledMeans(instructors, courses);
  }
}
