/**
  * jobmatch/linear_program_optimization.py: `iterative_linear_programming_solver`.
  *
  * Every instructor is split into `max_classes` numbered sections. Rounds then
  * ask a binary program which (section, course) pairs to take and commit each
  * chosen pair that can still be taught, one course section at a time. A greedy
  * post-fill finally hands each course's remaining sections to the first
  * instructor, in section order, who can still take it.
  *
  * The pulp model and its CBC solve are a foreign call; the solver takes their
  * 0/1 answers as an oracle `choose(round, section, course)` that may answer
  * anything at all. The records are changed in place, as in the source.
  */
module LinearProgram {
  import opened Wrappers
  import opened Text
  import opened Entities

  /**
    * One capacity unit of an instructor: its name `f"{name}_section_{number}"`,
    * the instructor it maps to (`section_to_instructor_map`, as an index into
    * the instructor list) and its number.
    */
  datatype Section = Section(name: string, owner: nat, number: nat)

  /** `f"{instructor}_section_{number}"`. */
  function SectionName(instructor: string, number: nat): string {
    instructor + "_section_" + NatToString(number)
  }

  /** The separator's last underscore ends it, and only digits follow. */
  lemma SectionNameShape(name: string, number: nat)
    ensures |SectionName(name, number)| > |name| + 9
    ensures SectionName(name, number)[|name| + 8] == '_'
    ensures forall k :: |name| + 8 < k < |SectionName(name, number)| ==> SectionName(name, number)[k] != '_'
  {
    var s, digits := SectionName(name, number), NatToString(number);
    forall k | |name| + 8 < k < |s|
      ensures s[k] != '_'
    {
      assert s[k] == digits[k - |name| - 9];
    }
  }

  /**
    * Section names determine instructor name and number, so with distinct
    * instructor names `section_to_instructor_map` keeps one entry per section.
    */
  lemma SectionNameInjective(a: string, m: nat, b: string, n: nat)
    ensures SectionName(a, m) == SectionName(b, n) <==> a == b && m == n
  {
    if SectionName(a, m) == SectionName(b, n) {
      var s := SectionName(a, m);
      SectionNameShape(a, m);
      SectionNameShape(b, n);
      assert |a| == |b|;
      assert a == s[..|a|] == b;
      assert NatToString(m) == s[|a| + 9..] == NatToString(n);
      NatToStringInjective(m, n);
    }
  }

  /** The sections of instructor `i`, numbered 1 to `max_classes`. */
  function OwnSections(inst: Instructor, i: nat): (r: seq<Section>)
    ensures |r| == inst.maxClasses
    ensures forall k :: 0 <= k < |r| ==> r[k] == Section(SectionName(inst.name, k + 1), i, k + 1)
  {
    seq(inst.maxClasses, k requires 0 <= k < inst.maxClasses => Section(SectionName(inst.name, k + 1), i, k + 1))
  }

  /** `instructor_sections`: every instructor's sections, instructor by instructor in input order. */
  function AllSections(instructors: seq<Instructor>): seq<Section> {
    if instructors == [] then []
    else
      var n := |instructors| - 1;
      AllSections(instructors[..n]) + OwnSections(instructors[n], n)
  }

  /** Lines 34-38: the nested loop that builds `instructor_sections`. */
  method SplitIntoSections(instructors: seq<Instructor>) returns (sections: seq<Section>)
    ensures sections == AllSections(instructors)
  {
    sections := [];
    for i := 0 to |instructors|
      invariant sections == AllSections(instructors[..i])
    {
      var inst := instructors[i];
      ghost var before := sections;
      for k := 0 to inst.maxClasses
        invariant sections == before + OwnSections(inst, i)[..k]
      {
        sections := sections + [Section(SectionName(inst.name, k + 1), i, k + 1)];
        assert OwnSections(inst, i)[..k + 1] == OwnSections(inst, i)[..k] + [OwnSections(inst, i)[k]];
      }
      assert OwnSections(inst, i)[..inst.maxClasses] == OwnSections(inst, i);
      assert instructors[..i + 1][..i] == instructors[..i];
    }
    assert instructors[..|instructors|] == instructors;
  }

  /** `s` is section number `s.number` of instructor `s.owner`, within that instructor's `max_classes`. */
  predicate SectionOf(instructors: seq<Instructor>, s: Section) {
    && s.owner < |instructors|
    && 1 <= s.number <= instructors[s.owner].maxClasses
    && s.name == SectionName(instructors[s.owner].name, s.number)
  }

  /** Every section belongs to one of the instructors. */
  predicate Owned(sections: seq<Section>, n: nat) {
    forall q :: 0 <= q < |sections| ==> sections[q].owner < n
  }

  /** Every section is a numbered section of its instructor. */
  lemma {:induction false} SectionsSound(instructors: seq<Instructor>)
    ensures forall q :: 0 <= q < |AllSections(instructors)| ==> SectionOf(instructors, AllSections(instructors)[q])
    ensures Owned(AllSections(instructors), |instructors|)
  {
    if instructors != [] {
      var n := |instructors| - 1;
      SectionsSound(instructors[..n]);
      var all, init := AllSections(instructors), AllSections(instructors[..n]);
      forall q | 0 <= q < |all|
        ensures SectionOf(instructors, all[q])
      {
        if q < |init| {
          assert all[q] == init[q];
          assert instructors[..n][init[q].owner] == instructors[init[q].owner];
        } else {
          assert all[q] == OwnSections(instructors[n], n)[q - |init|];
        }
      }
    }
  }

  /** Every instructor has sections `1 .. max_classes`. */
  lemma {:induction false} SectionsComplete(instructors: seq<Instructor>)
    ensures forall i, m :: 0 <= i < |instructors| && 1 <= m <= instructors[i].maxClasses ==>
      Section(SectionName(instructors[i].name, m), i, m) in AllSections(instructors)
  {
    if instructors != [] {
      var n := |instructors| - 1;
      SectionsComplete(instructors[..n]);
      var all, init := AllSections(instructors), AllSections(instructors[..n]);
      forall i, m | 0 <= i < |instructors| && 1 <= m <= instructors[i].maxClasses
        ensures Section(SectionName(instructors[i].name, m), i, m) in all
      {
        if i < n {
          assert instructors[..n][i] == instructors[i];
          assert Section(SectionName(instructors[i].name, m), i, m) in init;
        } else {
          assert all[|init| + m - 1] == OwnSections(instructors[n], n)[m - 1];
        }
      }
    }
  }

  /** Sections come instructor by instructor in input order, each instructor's by increasing number. */
  lemma {:induction false} SectionsOrdered(instructors: seq<Instructor>)
    ensures forall p, q :: 0 <= p < q < |AllSections(instructors)| ==>
      var a, b := AllSections(instructors)[p], AllSections(instructors)[q];
      a.owner < b.owner || (a.owner == b.owner && a.number < b.number)
  {
    if instructors != [] {
      var n := |instructors| - 1;
      SectionsOrdered(instructors[..n]);
      SectionsSound(instructors[..n]);
      var all, init, own := AllSections(instructors), AllSections(instructors[..n]), OwnSections(instructors[n], n);
      assert all == init + own;
      forall p, q | 0 <= p < q < |all|
        ensures all[p].owner < all[q].owner || (all[p].owner == all[q].owner && all[p].number < all[q].number)
      {
        if q < |init| {
          assert all[p] == init[p] && all[q] == init[q];
        } else if p < |init| {
          assert all[p] == init[p] && all[q] == own[q - |init|];
        } else {
          assert all[p] == own[p - |init|] && all[q] == own[q - |init|];
        }
      }
    }
  }

  /** With distinct instructor names, no two sections share a name. */
  lemma SectionNamesDistinct(instructors: seq<Instructor>)
    requires DistinctInstructorNames(instructors)
    ensures forall p, q :: 0 <= p < q < |AllSections(instructors)| ==>
      AllSections(instructors)[p].name != AllSections(instructors)[q].name
  {
    SectionsSound(instructors);
    SectionsOrdered(instructors);
    var all := AllSections(instructors);
    forall p, q | 0 <= p < q < |all|
      ensures all[p].name != all[q].name
    {
      var a, b := all[p], all[q];
      assert SectionOf(instructors, a) && SectionOf(instructors, b);
      SectionNameInjective(instructors[a.owner].name, a.number, instructors[b.owner].name, b.number);
    }
  }

  /** Each instructor's assigned list, in instructor order. */
  function AssignedLists(instructors: seq<Instructor>): (r: seq<seq<string>>)
    reads instructors
    ensures |r| == |instructors|
    ensures forall i :: 0 <= i < |instructors| ==> r[i] == instructors[i].assignedCourses
  {
    seq(|instructors|, i requires 0 <= i < |instructors| reads instructors => instructors[i].assignedCourses)
  }

  /** Each instructor's set of distinct courses, in instructor order. */
  function UniqueSets(instructors: seq<Instructor>): (r: seq<set<string>>)
    reads instructors
    ensures |r| == |instructors|
    ensures forall i :: 0 <= i < |instructors| ==> r[i] == instructors[i].uniqueCourses
  {
    seq(|instructors|, i requires 0 <= i < |instructors| reads instructors => instructors[i].uniqueCourses)
  }

  /** A section is open while its instructor has room and fewer than two distinct courses. */
  predicate OpenSection(instructors: seq<Instructor>, lists: seq<seq<string>>, uniques: seq<set<string>>, s: Section)
    requires |lists| == |uniques| == |instructors|
  {
    s.owner < |instructors| && |lists[s.owner]| < instructors[s.owner].maxClasses && |uniques[s.owner]| < 2
  }

  /** `eligible_instructor_sections`: the open sections, in order. */
  function EligibleSections(instructors: seq<Instructor>, lists: seq<seq<string>>, uniques: seq<set<string>>,
                            sections: seq<Section>): (r: seq<Section>)
    requires |lists| == |uniques| == |instructors|
    ensures |r| <= |sections|
  {
    if sections == [] then []
    else
      var n := |sections| - 1;
      EligibleSections(instructors, lists, uniques, sections[..n])
      + if OpenSection(instructors, lists, uniques, sections[n]) then [sections[n]] else []
  }

  /** Every open section is eligible. */
  lemma {:induction false} EligibleSectionsComplete(instructors: seq<Instructor>, lists: seq<seq<string>>,
                                                    uniques: seq<set<string>>, sections: seq<Section>)
    requires |lists| == |uniques| == |instructors|
    ensures forall q :: 0 <= q < |sections| && OpenSection(instructors, lists, uniques, sections[q]) ==>
      sections[q] in EligibleSections(instructors, lists, uniques, sections)
  {
    if sections != [] {
      var n := |sections| - 1;
      EligibleSectionsComplete(instructors, lists, uniques, sections[..n]);
      var init := EligibleSections(instructors, lists, uniques, sections[..n]);
      assert EligibleSections(instructors, lists, uniques, sections)
          == init + if OpenSection(instructors, lists, uniques, sections[n]) then [sections[n]] else [];
      forall q | 0 <= q < |sections| && OpenSection(instructors, lists, uniques, sections[q])
        ensures sections[q] in EligibleSections(instructors, lists, uniques, sections)
      {
        if q < n {
          assert sections[..n][q] == sections[q];
          assert sections[q] in init;
        }
      }
    }
  }

  /** Every eligible section is one of the sections, and open. */
  lemma {:induction false} EligibleSectionsSound(instructors: seq<Instructor>, lists: seq<seq<string>>,
                                                 uniques: seq<set<string>>, sections: seq<Section>)
    requires |lists| == |uniques| == |instructors|
    ensures forall k :: 0 <= k < |EligibleSections(instructors, lists, uniques, sections)| ==>
      var s := EligibleSections(instructors, lists, uniques, sections)[k];
      s in sections && OpenSection(instructors, lists, uniques, s)
  {
    if sections != [] {
      var n := |sections| - 1;
      EligibleSectionsSound(instructors, lists, uniques, sections[..n]);
      var eligible, init := EligibleSections(instructors, lists, uniques, sections),
                            EligibleSections(instructors, lists, uniques, sections[..n]);
      assert eligible == init + if OpenSection(instructors, lists, uniques, sections[n]) then [sections[n]] else [];
      forall k | 0 <= k < |eligible|
        ensures eligible[k] in sections && OpenSection(instructors, lists, uniques, eligible[k])
      {
        if k < |init| {
          assert eligible[k] == init[k];
          assert init[k] in sections[..n];
        }
      }
    }
  }

  /** What the run keeps from its start: each instructor's list and course set and validity, each course's list and count. */
  datatype Start = Start(lists: seq<seq<string>>, uniques: seq<set<string>>, valid: seq<bool>,
                         rosters: seq<seq<string>>, sections: seq<nat>)

  ghost function Snapshot(instructors: seq<Instructor>, courses: seq<Course>): (start: Start)
    reads instructors, courses
    ensures |start.lists| == |start.uniques| == |start.valid| == |instructors|
    ensures |start.rosters| == |start.sections| == |courses|
    ensures forall i :: 0 <= i < |instructors| ==> start.valid[i] == instructors[i].Valid()
    ensures forall i :: 0 <= i < |instructors| ==>
      start.lists[i] == instructors[i].assignedCourses && start.uniques[i] == instructors[i].uniqueCourses
    ensures forall j :: 0 <= j < |courses| ==>
      start.rosters[j] == courses[j].assignedInstructors && start.sections[j] == courses[j].sectionsAvailable
  {
    Start(AssignedLists(instructors), UniqueSets(instructors),
          seq(|instructors|, i requires 0 <= i < |instructors| reads instructors => instructors[i].Valid()),
          Rosters(courses), SectionsOf(courses))
  }

  predicate Fits(start: Start, instructors: seq<Instructor>, courses: seq<Course>) {
    && |start.lists| == |start.uniques| == |start.valid| == |instructors|
    && |start.rosters| == |start.sections| == |courses|
  }

  /** What each list gained past its length at the start. */
  function Gains(lists: seq<seq<string>>, lists0: seq<seq<string>>): (r: seq<seq<string>>)
    requires |lists| == |lists0|
    ensures |r| == |lists|
    ensures forall i :: 0 <= i < |lists| && |lists0[i]| <= |lists[i]| ==> r[i] == lists[i][|lists0[i]|..]
  {
    seq(|lists|, i requires 0 <= i < |lists| =>
      if |lists0[i]| <= |lists[i]| then lists[i][|lists0[i]|..] else [])
  }

  /**
    * The run's books on values: each instructor's list only grew, its course
    * set grew by exactly the courses it gained, and the course-side books of
    * `Books` hold for what the instructors gained.
    */
  predicate Ledger(instructors: seq<Instructor>, courses: seq<Course>, lists: seq<seq<string>>,
                   uniques: seq<set<string>>, rosters: seq<seq<string>>, sections: seq<nat>, start: Start)
    requires Fits(start, instructors, courses)
    requires |lists| == |uniques| == |instructors| && |rosters| == |sections| == |courses|
  {
    && (forall i :: 0 <= i < |lists| ==>
          start.lists[i] <= lists[i] && uniques[i] == start.uniques[i] + Elems(lists[i][|start.lists[i]|..]))
    && Books(instructors, courses, Gains(lists, start.lists), rosters, sections, start.rosters, start.sections)
  }

  /** Granting `g` (at most one) sections of course `j` to instructor `i` keeps the ledger. */
  lemma LedgerGrant(instructors: seq<Instructor>, courses: seq<Course>, lists: seq<seq<string>>,
                    uniques: seq<set<string>>, rosters: seq<seq<string>>, sections: seq<nat>, start: Start,
                    i: nat, j: nat, g: nat)
    requires Fits(start, instructors, courses)
    requires |lists| == |uniques| == |instructors| && |rosters| == |sections| == |courses|
    requires i < |instructors| && j < |courses| && g <= 1 && g <= sections[j]
    requires Ledger(instructors, courses, lists, uniques, rosters, sections, start)
    ensures Ledger(instructors, courses, lists[i := lists[i] + Repeat(courses[j].name, g)],
                   uniques[i := if g > 0 then uniques[i] + {courses[j].name} else uniques[i]],
                   rosters[j := rosters[j] + Repeat(instructors[i].name, g)], sections[j := sections[j] - g], start)
  {
    var name := courses[j].name;
    var gains := Gains(lists, start.lists);
    BooksGrant(instructors, courses, gains, rosters, sections, start.rosters, start.sections, i, j, g);
    var list := lists[i] + Repeat(name, g);
    var lists' := lists[i := list];
    assert list[|start.lists[i]|..] == lists[i][|start.lists[i]|..] + Repeat(name, g);
    assert Gains(lists', start.lists) == gains[i := gains[i] + Repeat(name, g)];
    ElemsAppend(lists[i][|start.lists[i]|..], Repeat(name, g));
    ElemsRepeat(name, g);
  }

  /**
    * The solver's state since `start`: every instructor that was valid still
    * is, and the ledger holds on the current lists, sets, rosters and counts.
    */
  ghost predicate RunState(instructors: seq<Instructor>, courses: seq<Course>, start: Start)
    requires Fits(start, instructors, courses)
    reads instructors, courses
  {
    && (forall i :: 0 <= i < |instructors| && start.valid[i] ==> instructors[i].Valid())
    && Ledger(instructors, courses, AssignedLists(instructors), UniqueSets(instructors), Rosters(courses),
              SectionsOf(courses), start)
  }

  /** At the start nothing is gained and every course is where it began. */
  lemma RunStateAtStart(instructors: seq<Instructor>, courses: seq<Course>)
    ensures Fits(Snapshot(instructors, courses), instructors, courses)
    ensures RunState(instructors, courses, Snapshot(instructors, courses))
  {
    var start := Snapshot(instructors, courses);
    var lists := AssignedLists(instructors);
    forall i | 0 <= i < |lists|
      ensures lists[i][|start.lists[i]|..] == []
    {
    }
    forall j | 0 <= j < |courses|
      ensures start.rosters[j][|start.rosters[j]|..] == []
    {
    }
  }

  /** After a change to instructor `i` alone, the lists and sets differ at `i` at most. */
  lemma OtherInstructorsUnchanged(instructors: seq<Instructor>, i: nat, lists: seq<seq<string>>,
                                  uniques: seq<set<string>>)
    requires i < |instructors| == |lists| == |uniques|
    requires forall k :: 0 <= k < |instructors| && k != i ==>
      instructors[k].assignedCourses == lists[k] && instructors[k].uniqueCourses == uniques[k]
    ensures AssignedLists(instructors) == lists[i := instructors[i].assignedCourses]
    ensures UniqueSets(instructors) == uniques[i := instructors[i].uniqueCourses]
  {
  }

  /**
    * Lines 114-119 on the two records: when `inst` can teach the course and a
    * section is left, one section moves, recorded on both sides.
    */
  method TakeSection(inst: Instructor, course: Course) returns (granted: nat)
    modifies inst, course
    ensures granted <= 1 && granted <= old(course.sectionsAvailable)
    ensures granted == 1 <==> old(inst.CanTeach(course.name)) && old(course.sectionsAvailable) > 0
    ensures inst.assignedCourses == old(inst.assignedCourses) + Repeat(course.name, granted)
    ensures inst.uniqueCourses == if granted > 0 then old(inst.uniqueCourses) + {course.name} else old(inst.uniqueCourses)
    ensures course.assignedInstructors == old(course.assignedInstructors) + Repeat(inst.name, granted)
    ensures course.sectionsAvailable == old(course.sectionsAvailable) - granted
    ensures old(inst.Valid()) ==> inst.Valid()
  {
    granted := 0;
    if inst.CanTeach(course.name) {
      var slots := Min(1, course.sectionsAvailable);
      if slots > 0 {
        inst.AssignCourse(course.name, slots);
        course.GrantSections(inst.name, slots);
        granted := slots;
      }
    }
    if granted == 0 {
      assert Repeat(course.name, 0) == [] && Repeat(inst.name, 0) == [];
    }
  }

  /**
    * Lines 113-120 for instructor `i` and course `course` (which is
    * `courses[j]`): when the instructor can teach it and a section is left,
    * one section moves, recorded on both sides; otherwise nothing changes.
    */
  method CommitStep(instructors: seq<Instructor>, courses: seq<Course>, i: nat, course: Course, ghost j: nat,
                    ghost lists: seq<seq<string>>, ghost uniques: seq<set<string>>,
                    ghost rosters: seq<seq<string>>, ghost sections: seq<nat>)
    returns (granted: nat)
    requires i < |instructors| && j < |courses| && courses[j] == course
    requires DistinctInstructorNames(instructors) && DistinctRecords(courses)
    requires lists == AssignedLists(instructors) && uniques == UniqueSets(instructors)
    requires rosters == Rosters(courses) && sections == SectionsOf(courses)
    modifies instructors[i], course
    ensures granted <= 1 && granted <= sections[j]
    ensures granted == 1 <==> old(instructors[i].CanTeach(course.name)) && sections[j] > 0
    ensures AssignedLists(instructors) == lists[i := lists[i] + Repeat(course.name, granted)]
    ensures UniqueSets(instructors) == uniques[i := if granted > 0 then uniques[i] + {course.name} else uniques[i]]
    ensures Rosters(courses) == rosters[j := rosters[j] + Repeat(instructors[i].name, granted)]
    ensures course.sectionsAvailable + granted == sections[j]
    ensures SectionsOf(courses) == sections[j := course.sectionsAvailable]
    ensures forall k :: 0 <= k < |instructors| && old(instructors[k].Valid()) ==> instructors[k].Valid()
  {
    granted := TakeSection(instructors[i], course);
    forall k | 0 <= k < |instructors| && k != i
      ensures instructors[k].assignedCourses == lists[k] && instructors[k].uniqueCourses == uniques[k]
    {
      assert instructors[k].name != instructors[i].name;
    }
    forall k | 0 <= k < |courses| && k != j
      ensures courses[k].assignedInstructors == rosters[k] && courses[k].sectionsAvailable == sections[k]
    {
      assert courses[k] != courses[j];
    }
    RecordsAfter(instructors, courses, i, j, lists, uniques, rosters, sections,
                 lists[i] + Repeat(course.name, granted),
                 if granted > 0 then uniques[i] + {course.name} else uniques[i],
                 rosters[j] + Repeat(instructors[i].name, granted), course.sectionsAvailable);
  }

  /** The books after instructor `i` and course `j` took the values `list`, `unique`, `roster` and `left`. */
  lemma RecordsAfter(instructors: seq<Instructor>, courses: seq<Course>, i: nat, j: nat,
                     lists: seq<seq<string>>, uniques: seq<set<string>>, rosters: seq<seq<string>>, sections: seq<nat>,
                     list: seq<string>, unique: set<string>, roster: seq<string>, left: nat)
    requires i < |instructors| == |lists| == |uniques| && j < |courses| == |rosters| == |sections|
    requires forall k :: 0 <= k < |instructors| && k != i ==>
      instructors[k].assignedCourses == lists[k] && instructors[k].uniqueCourses == uniques[k]
    requires forall k :: 0 <= k < |courses| && k != j ==>
      courses[k].assignedInstructors == rosters[k] && courses[k].sectionsAvailable == sections[k]
    requires instructors[i].assignedCourses == list && instructors[i].uniqueCourses == unique
    requires courses[j].assignedInstructors == roster && courses[j].sectionsAvailable == left
    ensures AssignedLists(instructors) == lists[i := list] && UniqueSets(instructors) == uniques[i := unique]
    ensures Rosters(courses) == rosters[j := roster] && SectionsOf(courses) == sections[j := left]
  {
    OtherInstructorsUnchanged(instructors, i, lists, uniques);
    OthersUnchangedCourses(courses, j, rosters, sections);
  }

  /** The commit on the solver's state: the books are kept, and the sections left fall by what was granted. */
  method Commit(instructors: seq<Instructor>, courses: seq<Course>, i: nat, course: Course, ghost j: nat,
                ghost start: Start, ghost lists: seq<seq<string>>, ghost uniques: seq<set<string>>,
                ghost sections: seq<nat>)
    returns (granted: nat)
    requires Fits(start, instructors, courses)
    requires i < |instructors| && j < |courses| && courses[j] == course
    requires DistinctInstructorNames(instructors) && DistinctRecords(courses)
    requires RunState(instructors, courses, start)
    requires lists == AssignedLists(instructors) && uniques == UniqueSets(instructors)
    requires sections == SectionsOf(courses)
    modifies instructors[i], course
    ensures RunState(instructors, courses, start)
    ensures granted <= 1
    ensures granted == 1 <==> old(instructors[i].CanTeach(course.name)) && sections[j] > 0
    ensures Sum(SectionsOf(courses)) + granted == Sum(sections)
    ensures AssignedLists(instructors) == lists[i := lists[i] + Repeat(course.name, granted)]
    ensures UniqueSets(instructors) == uniques[i := if granted > 0 then uniques[i] + {course.name} else uniques[i]]
    ensures course.sectionsAvailable + granted == sections[j]
    ensures SectionsOf(courses) == sections[j := course.sectionsAvailable]
    ensures granted == 0 ==> && AssignedLists(instructors) == lists && UniqueSets(instructors) == uniques
                             && SectionsOf(courses) == sections
  {
    ghost var rosters := Rosters(courses);
    granted := CommitStep(instructors, courses, i, course, j, lists, uniques, rosters, sections);
    assert SectionsOf(courses) == sections[j := sections[j] - granted];
    SumTake(sections, j, granted);
    LedgerGrant(instructors, courses, lists, uniques, rosters, sections, start, i, j, granted);
    if granted == 0 {
      NoGrant(lists, uniques, sections, i, j, course.name);
    }
  }

  /** Taking `g` from entry `j` takes `g` from the total. */
  lemma SumTake(sections: seq<nat>, j: nat, g: nat)
    requires j < |sections| && g <= sections[j]
    ensures Sum(sections[j := sections[j] - g]) + g == Sum(sections)
  {
    SumUpdate(sections, j, sections[j] - g);
  }

  /** A grant of nothing leaves every list, set and count as it was. */
  lemma NoGrant(lists: seq<seq<string>>, uniques: seq<set<string>>, sections: seq<nat>, i: nat, j: nat, name: string)
    requires i < |lists| == |uniques| && j < |sections|
    ensures lists[i := lists[i] + Repeat(name, 0)] == lists
    ensures uniques[i := uniques[i]] == uniques
    ensures sections[j := sections[j] - 0] == sections
  {
    assert lists[i] + Repeat(name, 0) == lists[i];
  }
}
