/**
  * The entity model of jobmatch/dataclasses.py: instructors and courses as
  * mutable records, and the per-run AssignmentTracker shadow the solvers use.
  *
  * Fields that the code never reassigns are `const`; `assigned_courses`,
  * `unique_courses`, `sections_available` and `assigned_instructors` are the
  * state the solvers update in place.
  */
module Entities {
  import opened Wrappers

  /** `set(xs)`. */
  function Elems<T>(s: seq<T>): set<T> {
    set x | x in s
  }

  /** `[x] * n`. */
  function Repeat<T>(x: T, n: nat): (r: seq<T>)
    ensures |r| == n
    ensures forall i :: 0 <= i < n ==> r[i] == x
  {
    seq(n, _ => x)
  }

  lemma ElemsAppend<T>(a: seq<T>, b: seq<T>)
    ensures Elems(a + b) == Elems(a) + Elems(b)
  {
  }

  lemma ElemsRepeat<T>(x: T, n: nat)
    ensures Elems(Repeat(x, n)) == if n > 0 then {x} else {}
  {
    if n > 0 {
      assert Repeat(x, n)[0] == x;
    }
  }

  /**
    * The number of sections `assign_course(course, slots)` really appends:
    * `min(slots, max_classes - len(assigned_courses))` when that is positive,
    * and none otherwise.
    */
  function GrantedSlots(slots: int, maxClasses: nat, assignedCount: nat): (n: nat)
    ensures assignedCount <= maxClasses ==> assignedCount + n <= maxClasses
    ensures n <= if slots < 0 then 0 else slots
    ensures 0 < slots && assignedCount < maxClasses ==> n > 0
  {
    var available := if slots < maxClasses - assignedCount then slots else maxClasses - assignedCount;
    if available > 0 then available else 0
  }

  /**
    * The decision `can_teach` takes from an assignment state: a full load or a
    * new third course is refused, and the degree branch answers true either way.
    */
  function Teachable(assignedCount: nat, unique: set<string>, maxClasses: nat,
                     degree: Option<string>, course: string): (r: bool)
    ensures r <==> assignedCount < maxClasses && (|unique| < 2 || course in unique)
  {
    if assignedCount >= maxClasses then false
    else if |unique| >= 2 && course !in unique then false
    else if degree == Some("mas") then true
    else true
  }

  class Instructor {
    const name: string
    const maxClasses: nat
    const degree: Option<string>
    const preferences: seq<string>
    var assignedCourses: seq<string>
    var uniqueCourses: set<string>

    /** The dataclass constructor, every field given. */
    constructor (name: string, maxClasses: nat, degree: Option<string>, preferences: seq<string>,
                 assignedCourses: seq<string>, uniqueCourses: set<string>)
      ensures this.name == name && this.maxClasses == maxClasses && this.degree == degree
      ensures this.preferences == preferences
      ensures this.assignedCourses == assignedCourses && this.uniqueCourses == uniqueCourses
    {
      this.name := name;
      this.maxClasses := maxClasses;
      this.degree := degree;
      this.preferences := preferences;
      this.assignedCourses := assignedCourses;
      this.uniqueCourses := uniqueCourses;
    }

    /**
      * The record invariant: at most `max_classes` sections, `unique_courses`
      * is the set of `assigned_courses`, and at most two distinct courses.
      */
    ghost predicate Valid()
      reads this
    {
      && |assignedCourses| <= maxClasses
      && uniqueCourses == Elems(assignedCourses)
      && |uniqueCourses| <= 2
    }

    /** `can_teach(course)`. */
    function CanTeach(course: string): (r: bool)
      reads this
      ensures r <==> |assignedCourses| < maxClasses && (|uniqueCourses| < 2 || course in uniqueCourses)
    {
      Teachable(|assignedCourses|, uniqueCourses, maxClasses, degree, course)
    }

    /**
      * `assign_course(course, slots)`: appends the granted number of copies of
      * `course` and records it as taught when at least one was granted. It
      * does not itself check the two-course cap; callers check `can_teach`.
      */
    method AssignCourse(course: string, slots: int)
      modifies this
      ensures assignedCourses
           == old(assignedCourses) + Repeat(course, GrantedSlots(slots, maxClasses, old(|assignedCourses|)))
      ensures uniqueCourses
           == if GrantedSlots(slots, maxClasses, old(|assignedCourses|)) > 0
              then old(uniqueCourses) + {course} else old(uniqueCourses)
      ensures old(|assignedCourses|) <= maxClasses ==> |assignedCourses| <= maxClasses
      ensures old(uniqueCourses == Elems(assignedCourses)) ==> uniqueCourses == Elems(assignedCourses)
      ensures old(Valid()) && old(CanTeach(course)) ==> Valid()
    {
      var available := GrantedSlots(slots, maxClasses, |assignedCourses|);
      ElemsAppend(assignedCourses, Repeat(course, available));
      ElemsRepeat(course, available);
      if available > 0 {
        assignedCourses := assignedCourses + Repeat(course, available);
        uniqueCourses := uniqueCourses + {course};
      }
    }
  }

  class Course {
    const name: string
    const courseId: string
    const description: string
    var sectionsAvailable: nat
    var assignedInstructors: seq<string>
    const courseDirector: Option<string>

    constructor (name: string, courseId: string, description: string, sectionsAvailable: nat,
                 assignedInstructors: seq<string>, courseDirector: Option<string>)
      ensures this.name == name && this.courseId == courseId && this.description == description
      ensures this.sectionsAvailable == sectionsAvailable
      ensures this.assignedInstructors == assignedInstructors
      ensures this.courseDirector == courseDirector
    {
      this.name := name;
      this.courseId := courseId;
      this.description := description;
      this.sectionsAvailable := sectionsAvailable;
      this.assignedInstructors := assignedInstructors;
      this.courseDirector := courseDirector;
    }

    /**
      * Hands `n` sections to `instructor`: the course's list grows by `n`
      * copies of the name exactly as its remaining count shrinks by `n`.
      */
    method GrantSections(instructor: string, n: nat)
      requires n <= sectionsAvailable
      modifies this
      ensures assignedInstructors == old(assignedInstructors) + Repeat(instructor, n)
      ensures sectionsAvailable == old(sectionsAvailable) - n
    {
      assignedInstructors := assignedInstructors + Repeat(instructor, n);
      sectionsAvailable := sectionsAvailable - n;
    }
  }

  /**
    * The per-run shadow of an Instructor used by the stable-marriage and
    * bipartite solvers. Its definition is not part of this model's source;
    * this class is an ASSUMPTION built from its tests: it starts empty, clamps
    * grants to `max_classes`, refuses a new third course and refuses any
    * course once full.
    */
  class AssignmentTracker {
    const instructor: Instructor
    var assignedCourses: seq<string>
    var uniqueCourses: set<string>
    var courseCount: nat

    constructor (instructor: Instructor)
      ensures this.instructor == instructor
      ensures assignedCourses == [] && uniqueCourses == {} && courseCount == 0
      ensures Valid()
    {
      this.instructor := instructor;
      assignedCourses := [];
      uniqueCourses := {};
      courseCount := 0;
    }

    /** The tracker's invariant: the same caps as the Instructor's, on its own lists. */
    ghost predicate Valid()
      reads this
    {
      && courseCount == |assignedCourses| <= instructor.maxClasses
      && uniqueCourses == Elems(assignedCourses)
      && |uniqueCourses| <= 2
    }

    /** `can_assign(course)`: `can_teach` evaluated on the tracker's own lists. */
    function CanAssign(course: string): (r: bool)
      reads this
      ensures r <==> courseCount < instructor.maxClasses && (|uniqueCourses| < 2 || course in uniqueCourses)
    {
      Teachable(courseCount, uniqueCourses, instructor.maxClasses, instructor.degree, course)
    }

    /** `assign_course(course, slots)`: clamped like Instructor.assign_course. */
    method AssignCourse(course: string, slots: int)
      requires Valid()
      modifies this
      ensures assignedCourses
           == old(assignedCourses) + Repeat(course, GrantedSlots(slots, instructor.maxClasses, old(courseCount)))
      ensures uniqueCourses
           == if GrantedSlots(slots, instructor.maxClasses, old(courseCount)) > 0
              then old(uniqueCourses) + {course} else old(uniqueCourses)
      ensures courseCount == |assignedCourses| <= instructor.maxClasses
      ensures uniqueCourses == Elems(assignedCourses)
      ensures old(CanAssign(course)) ==> Valid()
    {
      var available := GrantedSlots(slots, instructor.maxClasses, courseCount);
      ElemsAppend(assignedCourses, Repeat(course, available));
      ElemsRepeat(course, available);
      if available > 0 {
        assignedCourses := assignedCourses + Repeat(course, available);
        uniqueCourses := uniqueCourses + {course};
        courseCount := courseCount + available;
      }
    }
  }

  /** The index the first course named `name` has, as `next(c for c in courses if c.name == name)`. */
  function FindCourse(courses: seq<Course>, name: string): (r: Option<nat>)
    ensures r.Some? ==> r.value < |courses| && courses[r.value].name == name
    ensures r.Some? ==> forall j :: 0 <= j < r.value ==> courses[j].name != name
    ensures r.None? <==> forall j :: 0 <= j < |courses| ==> courses[j].name != name
  {
    if courses == [] then None
    else if courses[0].name == name then Some(0)
    else match FindCourse(courses[1..], name)
      case None => None
      case Some(j) => Some(j + 1)
  }

  function CourseNames(courses: seq<Course>): (names: seq<string>)
    ensures |names| == |courses|
    ensures forall j :: 0 <= j < |courses| ==> names[j] == courses[j].name
  {
    seq(|courses|, j requires 0 <= j < |courses| => courses[j].name)
  }

  function InstructorNames(instructors: seq<Instructor>): (names: seq<string>)
    ensures |names| == |instructors|
    ensures forall i :: 0 <= i < |instructors| ==> names[i] == instructors[i].name
  {
    seq(|instructors|, i requires 0 <= i < |instructors| => instructors[i].name)
  }

  /** The index of the first instructor named `name`: with distinct names, the `trackers[name]` lookup. */
  function FindInstructor(instructors: seq<Instructor>, name: string): (r: Option<nat>)
    ensures r.Some? ==> r.value < |instructors| && instructors[r.value].name == name
    ensures r.Some? ==> forall i :: 0 <= i < r.value ==> instructors[i].name != name
    ensures r.None? <==> forall i :: 0 <= i < |instructors| ==> instructors[i].name != name
  {
    if instructors == [] then None
    else if instructors[0].name == name then Some(0)
    else match FindInstructor(instructors[1..], name)
      case None => None
      case Some(i) => Some(i + 1)
  }

  /**
    * The index of the last instructor named `name`: the record that
    * `{inst.name: inst for inst in instructors}` keeps under that key.
    */
  function LastInstructor(instructors: seq<Instructor>, name: string): (r: Option<nat>)
    ensures r.Some? ==> r.value < |instructors| && instructors[r.value].name == name
    ensures r.Some? ==> forall i :: r.value < i < |instructors| ==> instructors[i].name != name
    ensures r.None? <==> forall i :: 0 <= i < |instructors| ==> instructors[i].name != name
  {
    if instructors == [] then None
    else
      var n := |instructors| - 1;
      if instructors[n].name == name then Some(n) else LastInstructor(instructors[..n], name)
  }

  /** The index of the last course named `name`: the record that `{crs.name: crs for crs in courses}` keeps. */
  function LastCourse(courses: seq<Course>, name: string): (r: Option<nat>)
    ensures r.Some? ==> r.value < |courses| && courses[r.value].name == name
    ensures r.Some? ==> forall j :: r.value < j < |courses| ==> courses[j].name != name
    ensures r.None? <==> forall j :: 0 <= j < |courses| ==> courses[j].name != name
  {
    if courses == [] then None
    else
      var n := |courses| - 1;
      if courses[n].name == name then Some(n) else LastCourse(courses[..n], name)
  }

  /** The remaining sections of each course, in catalog order. */
  function SectionsOf(courses: seq<Course>): (r: seq<nat>)
    reads courses
    ensures |r| == |courses|
    ensures forall j :: 0 <= j < |courses| ==> r[j] == courses[j].sectionsAvailable
  {
    seq(|courses|, j requires 0 <= j < |courses| reads courses => courses[j].sectionsAvailable)
  }

  /** The assigned-instructor list of each course, in catalog order. */
  function Rosters(courses: seq<Course>): (r: seq<seq<string>>)
    reads courses
    ensures |r| == |courses|
    ensures forall j :: 0 <= j < |courses| ==> r[j] == courses[j].assignedInstructors
  {
    seq(|courses|, j requires 0 <= j < |courses| reads courses => courses[j].assignedInstructors)
  }

  function Sum(s: seq<nat>): nat {
    if s == [] then 0 else s[0] + Sum(s[1..])
  }

  /** Changing one entry changes the sum by the difference. */
  lemma {:induction false} SumUpdate(s: seq<nat>, j: nat, v: nat)
    requires j < |s|
    ensures Sum(s[j := v]) + s[j] == Sum(s) + v
  {
    if j > 0 {
      SumUpdate(s[1..], j - 1, v);
      assert s[j := v][1..] == s[1..][j - 1 := v];
    }
  }

  /** A course's list and remaining count since `(roster0, sections0)`: only appended to, and their total is kept. */
  predicate Conserved(roster0: seq<string>, sections0: nat, roster: seq<string>, sections: nat) {
    roster0 <= roster && |roster| + sections == |roster0| + sections0
  }

  /** Names are the records' keys: no two instructors share one. */
  predicate DistinctInstructorNames(instructors: seq<Instructor>) {
    forall i, j :: 0 <= i < j < |instructors| ==> instructors[i].name != instructors[j].name
  }

  /** The list holds each instructor record once. */
  predicate DistinctInstructorRecords(instructors: seq<Instructor>) {
    forall i, j :: 0 <= i < j < |instructors| ==> instructors[i] != instructors[j]
  }

  /** The catalog holds each course record once. */
  predicate DistinctRecords(courses: seq<Course>) {
    forall i, j :: 0 <= i < j < |courses| ==> courses[i] != courses[j]
  }

  /** Names are the records' keys: no two courses share one. */
  predicate DistinctCourseNames(courses: seq<Course>) {
    forall i, j :: 0 <= i < j < |courses| ==> courses[i].name != courses[j].name
  }

  /** With distinct names, a dict-built lookup and `next(...)` find the same instructor. */
  lemma LastInstructorIsFirst(instructors: seq<Instructor>, name: string)
    requires DistinctInstructorNames(instructors)
    ensures LastInstructor(instructors, name) == FindInstructor(instructors, name)
  {
    if FindInstructor(instructors, name).Some? {
      var f, l := FindInstructor(instructors, name).value, LastInstructor(instructors, name).value;
      assert !(f < l) && !(l < f);
    }
  }

  /** With distinct names, a dict-built lookup and `next(...)` find the same course. */
  lemma LastCourseIsFirst(courses: seq<Course>, name: string)
    requires DistinctCourseNames(courses)
    ensures LastCourse(courses, name) == FindCourse(courses, name)
  {
    if FindCourse(courses, name).Some? {
      var f, l := FindCourse(courses, name).value, LastCourse(courses, name).value;
      assert !(f < l) && !(l < f);
    }
  }

  /**
    * What the solvers keep true since the courses held `lists0` and
    * `sections0`, on the loads, course lists and remaining sections: every
    * load holds only catalog courses; every course list was only appended to,
    * by as many names as sections were taken, all of them instructor names.
    */
  predicate Books(instructors: seq<Instructor>, courses: seq<Course>, loads: seq<seq<string>>,
                  rosters: seq<seq<string>>, sections: seq<nat>, lists0: seq<seq<string>>, sections0: seq<nat>)
    requires |loads| == |instructors|
    requires |rosters| == |sections| == |lists0| == |sections0| == |courses|
  {
    && (forall i :: 0 <= i < |loads| ==> AllIn(loads[i], CourseNames(courses)))
    && (forall j :: 0 <= j < |courses| ==> Conserved(lists0[j], sections0[j], rosters[j], sections[j]))
    && (forall j :: 0 <= j < |courses| ==> AllIn(rosters[j][|lists0[j]|..], InstructorNames(instructors)))
  }

  /** Every element of `s` is one of `names`. */
  predicate AllIn(s: seq<string>, names: seq<string>) {
    forall k :: 0 <= k < |s| ==> s[k] in names
  }

  /** A grant of `g` sections of course `j` to instructor `i` keeps the books. */
  lemma BooksGrant(instructors: seq<Instructor>, courses: seq<Course>, loads: seq<seq<string>>,
                   rosters: seq<seq<string>>, sections: seq<nat>, lists0: seq<seq<string>>, sections0: seq<nat>,
                   i: nat, j: nat, g: nat)
    requires |loads| == |instructors|
    requires |rosters| == |sections| == |lists0| == |sections0| == |courses|
    requires i < |instructors| && j < |courses| && g <= sections[j]
    requires Books(instructors, courses, loads, rosters, sections, lists0, sections0)
    ensures Books(instructors, courses, loads[i := loads[i] + Repeat(courses[j].name, g)],
                  rosters[j := rosters[j] + Repeat(instructors[i].name, g)], sections[j := sections[j] - g],
                  lists0, sections0)
  {
    assert courses[j].name == CourseNames(courses)[j];
    assert instructors[i].name == InstructorNames(instructors)[i];
    var added := rosters[j] + Repeat(instructors[i].name, g);
    assert added[|lists0[j]|..] == rosters[j][|lists0[j]|..] + Repeat(instructors[i].name, g);
  }

  /** `eligible_courses`: the courses, in order, with a section left. */
  function OpenCourses(courses: seq<Course>): (r: seq<Course>)
    reads courses
    ensures |r| <= |courses|
  {
    Open(courses, SectionsOf(courses))
  }

  /** The courses, in order, whose entry in `sections` is positive. */
  function Open(courses: seq<Course>, sections: seq<nat>): (r: seq<Course>)
    requires |sections| == |courses|
    ensures |r| <= |courses|
  {
    if courses == [] then []
    else
      var n := |courses| - 1;
      Open(courses[..n], sections[..n]) + if sections[n] > 0 then [courses[n]] else []
  }

  /** Exactly the courses with a section left are open; none is when every course is full. */
  lemma OpenCoursesSpec(courses: seq<Course>)
    ensures forall j :: 0 <= j < |courses| && courses[j].sectionsAvailable > 0 ==> courses[j] in OpenCourses(courses)
    ensures forall k :: 0 <= k < |OpenCourses(courses)| ==>
      OpenCourses(courses)[k] in courses && OpenCourses(courses)[k].sectionsAvailable > 0
    ensures OpenCourses(courses) == [] <==> forall j :: 0 <= j < |courses| ==> courses[j].sectionsAvailable == 0
  {
    var sections := SectionsOf(courses);
    OpenComplete(courses, sections);
    OpenSound(courses, sections);
    var open := OpenCourses(courses);
    forall k | 0 <= k < |open|
      ensures open[k] in courses && open[k].sectionsAvailable > 0
    {
      var j :| 0 <= j < |courses| && courses[j] == open[k] && sections[j] > 0;
    }
    if open != [] {
      var j :| 0 <= j < |courses| && courses[j] == open[0] && sections[j] > 0;
    }
  }

  /** Every course with a positive entry is open. */
  lemma {:induction false} OpenComplete(courses: seq<Course>, sections: seq<nat>)
    requires |sections| == |courses|
    ensures forall j :: 0 <= j < |courses| && sections[j] > 0 ==> courses[j] in Open(courses, sections)
  {
    if courses != [] {
      var n := |courses| - 1;
      OpenComplete(courses[..n], sections[..n]);
      var init := Open(courses[..n], sections[..n]);
      assert Open(courses, sections) == init + if sections[n] > 0 then [courses[n]] else [];
      forall j | 0 <= j < |courses| && sections[j] > 0
        ensures courses[j] in Open(courses, sections)
      {
        if j < n {
          assert courses[..n][j] == courses[j] && sections[..n][j] == sections[j];
          assert courses[j] in init;
        }
      }
    }
  }

  /** Every open course is one of the courses, at a position whose entry is positive. */
  lemma {:induction false} OpenSound(courses: seq<Course>, sections: seq<nat>)
    requires |sections| == |courses|
    ensures forall k :: 0 <= k < |Open(courses, sections)| ==>
      exists j :: 0 <= j < |courses| && courses[j] == Open(courses, sections)[k] && sections[j] > 0
  {
    if courses != [] {
      var n := |courses| - 1;
      OpenSound(courses[..n], sections[..n]);
      var open, init := Open(courses, sections), Open(courses[..n], sections[..n]);
      assert open == init + if sections[n] > 0 then [courses[n]] else [];
      forall k | 0 <= k < |open|
        ensures exists j :: 0 <= j < |courses| && courses[j] == open[k] && sections[j] > 0
      {
        if k < |init| {
          var j :| 0 <= j < n && courses[..n][j] == init[k] && sections[..n][j] > 0;
          assert courses[j] == open[k] && sections[j] > 0;
        } else {
          assert courses[n] == open[k] && sections[n] > 0;
        }
      }
    } else {
      assert Open(courses, sections) == [];
    }
  }

  /** After a change to course `j` alone, the lists and counts differ at `j` at most. */
  lemma OthersUnchangedCourses(courses: seq<Course>, j: nat, rosters: seq<seq<string>>, sections: seq<nat>)
    requires j < |courses| == |rosters| == |sections|
    requires forall k :: 0 <= k < |courses| && k != j ==>
      courses[k].assignedInstructors == rosters[k] && courses[k].sectionsAvailable == sections[k]
    ensures Rosters(courses) == rosters[j := courses[j].assignedInstructors]
    ensures SectionsOf(courses) == sections[j := courses[j].sectionsAvailable]
  {
  }

  /** `{instructor.name: AssignmentTracker(instructor=instructor) ...}`: one fresh, empty tracker per instructor, in order. */
  method NewTrackers(instructors: seq<Instructor>) returns (trackers: seq<AssignmentTracker>)
    ensures |trackers| == |instructors|
    ensures forall i :: 0 <= i < |trackers| ==> fresh(trackers[i]) && trackers[i].instructor == instructors[i]
    ensures forall i :: 0 <= i < |trackers| ==> trackers[i].Valid() && trackers[i].assignedCourses == []
    ensures forall i, j :: 0 <= i < j < |trackers| ==> trackers[i] != trackers[j]
  {
    trackers := [];
    var k := 0;
    while k < |instructors|
      invariant 0 <= k <= |instructors| && |trackers| == k
      invariant forall i :: 0 <= i < k ==> fresh(trackers[i]) && trackers[i].instructor == instructors[i]
      invariant forall i :: 0 <= i < k ==> trackers[i].Valid() && trackers[i].assignedCourses == []
      invariant forall i, j :: 0 <= i < j < k ==> trackers[i] != trackers[j]
    {
      var tracker := new AssignmentTracker(instructors[k]);
      trackers := trackers + [tracker];
      k := k + 1;
    }
  }

  /**
    * The transfer after a solver loop: each instructor's lists are extended
    * and unioned with exactly its own tracker's lists.
    */
  method MergeTrackers(instructors: seq<Instructor>, trackers: seq<AssignmentTracker>)
    requires DistinctInstructorNames(instructors)
    requires |trackers| == |instructors|
    requires forall i :: 0 <= i < |trackers| ==> trackers[i].instructor == instructors[i]
    modifies instructors
    ensures forall i :: 0 <= i < |instructors| ==>
      && instructors[i].assignedCourses == old(instructors[i].assignedCourses) + trackers[i].assignedCourses
      && instructors[i].uniqueCourses == old(instructors[i].uniqueCourses) + trackers[i].uniqueCourses
  {
    var k := 0;
    while k < |trackers|
      invariant 0 <= k <= |trackers|
      invariant forall i :: 0 <= i < k ==>
        && instructors[i].assignedCourses == old(instructors[i].assignedCourses) + trackers[i].assignedCourses
        && instructors[i].uniqueCourses == old(instructors[i].uniqueCourses) + trackers[i].uniqueCourses
      invariant forall i :: k <= i < |instructors| ==>
        && instructors[i].assignedCourses == old(instructors[i].assignedCourses)
        && instructors[i].uniqueCourses == old(instructors[i].uniqueCourses)
    {
      var tracker := trackers[k];
      tracker.instructor.assignedCourses := tracker.instructor.assignedCourses + tracker.assignedCourses;
      tracker.instructor.uniqueCourses := tracker.instructor.uniqueCourses + tracker.uniqueCourses;
      k := k + 1;
    }
  }

  function Min(a: int, b: int): (m: int)
    ensures m <= a && m <= b && (m == a || m == b)
  {
    if a <= b then a else b
  }

  /**
    * The commit step the tracker-based solvers share: if the tracker may take
    * the course, grant `min(max_classes - course_count, sections_available)`
    * sections when that is positive, recording them on both sides.
    */
  method Grant(tracker: AssignmentTracker, course: Course) returns (granted: nat)
    requires tracker.Valid()
    modifies tracker, course
    ensures granted == if old(tracker.CanAssign(course.name))
                       then Min(tracker.instructor.maxClasses - old(tracker.courseCount), old(course.sectionsAvailable))
                       else 0
    ensures tracker.assignedCourses == old(tracker.assignedCourses) + Repeat(course.name, granted)
    ensures tracker.uniqueCourses
         == if granted > 0 then old(tracker.uniqueCourses) + {course.name} else old(tracker.uniqueCourses)
    ensures tracker.courseCount == old(tracker.courseCount) + granted
    ensures tracker.Valid()
    ensures course.assignedInstructors == old(course.assignedInstructors) + Repeat(tracker.instructor.name, granted)
    ensures course.sectionsAvailable + granted == old(course.sectionsAvailable)
  {
    granted := 0;
    if tracker.CanAssign(course.name) {
      var slots := Min(tracker.instructor.maxClasses - tracker.courseCount, course.sectionsAvailable);
      if slots > 0 {
        tracker.AssignCourse(course.name, slots);
        course.GrantSections(tracker.instructor.name, slots);
        granted := slots;
      }
    }
  }

  /** Scenario of tests/test_dataclasses.py:41-50: a grant above capacity is clamped, then the tracker is full. */
  method TrackerClampsToCapacity() returns (assignedCount: nat, canTakeAnother: bool)
    ensures assignedCount == 2 && !canTakeAnother
  {
    var bob := new Instructor("Bob", 2, Some("mas"), ["PS211", "SocSci311"], [], {});
    var tracker := new AssignmentTracker(bob);
    tracker.AssignCourse("PS211", bob.maxClasses + 1);
    assignedCount := |tracker.assignedCourses|;
    canTakeAnother := tracker.CanAssign("SocSci311");
  }

  /** Scenario of tests/test_dataclasses.py:23-39: two courses taken, a third is refused, a repeat is allowed until full. */
  method TrackerRefusesThirdCourse() returns (thirdAllowed: bool, repeatAllowed: bool, fullAllowed: bool)
    ensures !thirdAllowed && repeatAllowed && !fullAllowed
  {
    var alice := new Instructor("Alice", 3, Some("phd"), ["PS211", "PS302", "PS477"], [], {});
    var tracker := new AssignmentTracker(alice);
    tracker.AssignCourse("PS211", 1);
    tracker.AssignCourse("PS302", 1);
    thirdAllowed := tracker.CanAssign("PS477");
    repeatAllowed := tracker.CanAssign("PS211");
    tracker.AssignCourse("PS211", 1);
    fullAllowed := tracker.CanAssign("PS211");
  }

  /**
    * Scenario of tests/test_dataclasses.py:65-73: assign_course does not check
    * the two-course cap, so a caller that skips can_assign ends with three
    * distinct courses.
    */
  method AssignWithoutCheckExceedsCourseCap() returns (distinct: nat, canTakeFourth: bool)
    ensures distinct == 3 && !canTakeFourth
  {
    var alice := new Instructor("Alice", 3, Some("phd"), ["PS211", "PS302", "PS477"], [], {});
    var tracker := new AssignmentTracker(alice);
    tracker.AssignCourse("PS211", 1);
    tracker.AssignCourse("PS302", 1);
    tracker.AssignCourse("PS477", 1);
    assert tracker.uniqueCourses == {"PS211", "PS302", "PS477"};
    distinct := |tracker.uniqueCourses|;
    canTakeFourth := tracker.CanAssign("SocSci311");
  }
}
