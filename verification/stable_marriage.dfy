/**
  * `stable_marriage_solver` of jobmatch/stable_marriage.py: a FIFO queue of
  * instructors, each proposing to the next course on its preference list and
  * taking as many sections as its capacity and the course allow. Grants are
  * never revoked. The queue holds instructor positions; instructor names are
  * distinct, so a position stands for the name the source queues.
  */
module StableMarriage {
  import opened Wrappers
  import opened Entities

  /** The proposals an instructor has left: the termination measure of the queue loop. */
  function Slack(lens: seq<nat>, cursors: seq<nat>): nat
    requires |lens| == |cursors|
    requires forall i :: 0 <= i < |lens| ==> cursors[i] <= lens[i]
  {
    if lens == [] then 0 else lens[0] - cursors[0] + Slack(lens[1..], cursors[1..])
  }

  lemma {:induction false} SlackStep(lens: seq<nat>, cursors: seq<nat>, i: nat)
    requires |lens| == |cursors| && i < |lens|
    requires forall k :: 0 <= k < |lens| ==> cursors[k] <= lens[k]
    requires cursors[i] < lens[i]
    ensures Slack(lens, cursors[i := cursors[i] + 1]) + 1 == Slack(lens, cursors)
  {
    var p := cursors[i := cursors[i] + 1];
    if i == 0 {
      assert p[1..] == cursors[1..];
    } else {
      SlackStep(lens[1..], cursors[1..], i - 1);
      assert p[1..] == cursors[1..][i - 1 := cursors[i] + 1];
    }
  }

  /** The KeyError text for a preference naming no course. */
  function NotFound(name: string): string {
    "Course not found: " + name + ".\nPlease ensure correct naming conventions"
  }

  /**
    * Course `c` is closed to an instructor holding the distinct courses
    * `unique`: the first course of that name has no section left, or it would
    * be a third distinct course.
    */
  predicate Closed(courses: seq<Course>, sections: seq<nat>, unique: set<string>, c: string)
    requires |sections| == |courses|
  {
    match FindCourse(courses, c)
    case None => false
    case Some(j) => sections[j] == 0 || (|unique| >= 2 && c !in unique)
  }

  /** A closed course stays closed while sections only shrink and a two-course set stays put. */
  lemma ClosedPersists(courses: seq<Course>, sections: seq<nat>, sections': seq<nat>,
                       unique: set<string>, unique': set<string>, c: string)
    requires |sections| == |sections'| == |courses|
    requires forall j :: 0 <= j < |courses| ==> sections'[j] <= sections[j]
    requires |unique| >= 2 ==> unique' == unique
    requires Closed(courses, sections, unique, c)
    ensures Closed(courses, sections', unique', c)
  {
  }

  /** Every preference names a course of the catalog. */
  predicate AllPreferencesListed(instructors: seq<Instructor>, courses: seq<Course>) {
    forall i, k :: 0 <= i < |instructors| && 0 <= k < |instructors[i].preferences| ==>
      FindCourse(courses, instructors[i].preferences[k]).Some?
  }

  /** Some instructor has a preference naming no course, and `message` is the error raised for it. */
  predicate ReportsMissing(instructors: seq<Instructor>, courses: seq<Course>, message: string) {
    exists i, k :: 0 <= i < |instructors| && 0 <= k < |instructors[i].preferences| &&
      FindCourse(courses, instructors[i].preferences[k]).None? &&
      message == NotFound(instructors[i].preferences[k])
  }

  /** A preference naming no course is reported, and the catalog does not cover every preference. */
  lemma MissingReported(instructors: seq<Instructor>, courses: seq<Course>, i: nat, k: nat)
    requires i < |instructors| && k < |instructors[i].preferences|
    requires FindCourse(courses, instructors[i].preferences[k]).None?
    ensures ReportsMissing(instructors, courses, NotFound(instructors[i].preferences[k]))
    ensures !AllPreferencesListed(instructors, courses)
  {
  }

  /** `name` belongs to an instructor who listed `course`. */
  predicate ListedBy(instructors: seq<Instructor>, name: string, course: string) {
    exists i :: 0 <= i < |instructors| && instructors[i].name == name && course in instructors[i].preferences
  }

  /**
    * An instructor that gained `added` can take nothing more: it is full, or
    * every listed course is closed to it.
    */
  ghost predicate Saturated(inst: Instructor, added: seq<string>, courses: seq<Course>)
    reads courses
  {
    |added| >= inst.maxClasses ||
    forall k :: 0 <= k < |inst.preferences| ==> Closed(courses, SectionsOf(courses), Elems(added), inst.preferences[k])
  }

  /**
    * Lines 48-59 of the queue loop: look the preferred course up (KeyError when
    * absent) and, if the tracker may take it, grant
    * `min(max_classes - course_count, sections_available)` sections.
    * Afterwards the course is granted or, if the instructor still has room, closed to it.
    */
  method Propose(tracker: AssignmentTracker, courses: seq<Course>, preferred: string) returns (found: bool)
    requires tracker.Valid() && tracker.courseCount < tracker.instructor.maxClasses
    requires DistinctRecords(courses)
    modifies tracker, courses
    ensures found == FindCourse(courses, preferred).Some?
    ensures !found ==> unchanged(tracker)
    ensures tracker.Valid()
    ensures old(tracker.assignedCourses) <= tracker.assignedCourses
    ensures forall k :: old(|tracker.assignedCourses|) <= k < |tracker.assignedCourses| ==>
      tracker.assignedCourses[k] == preferred
    ensures old(|tracker.uniqueCourses|) >= 2 ==> tracker.uniqueCourses == old(tracker.uniqueCourses)
    ensures tracker.uniqueCourses <= old(tracker.uniqueCourses) + {preferred}
    ensures forall j :: 0 <= j < |courses| ==>
      var granted := if FindCourse(courses, preferred) == Some(j)
                     then |tracker.assignedCourses| - old(|tracker.assignedCourses|) else 0;
      && courses[j].assignedInstructors == old(courses[j].assignedInstructors) + Repeat(tracker.instructor.name, granted)
      && courses[j].sectionsAvailable + granted == old(courses[j].sectionsAvailable)
    ensures found && tracker.courseCount < tracker.instructor.maxClasses ==>
      Closed(courses, SectionsOf(courses), tracker.uniqueCourses, preferred)
  {
    var index := FindCourse(courses, preferred);
    if index.None? {
      return false;
    }
    var granted := Grant(tracker, courses[index.value]);
    return true;
  }

  /** A tracker's lists stay within its caps and hold only courses its instructor listed. */
  ghost predicate TrackerSound(t: AssignmentTracker)
    reads t
  {
    && t.Valid()
    && (forall k :: 0 <= k < |t.assignedCourses| ==> t.assignedCourses[k] in t.instructor.preferences)
    && (t.instructor.preferences == [] ==> t.assignedCourses == [])
  }

  /** What the queue loop leaves in one tracker: sound and, once the queue is empty, unable to take more. */
  ghost predicate TrackerOutcome(t: AssignmentTracker, courses: seq<Course>, finished: bool)
    reads t, courses
  {
    && TrackerSound(t)
    && (finished && t.instructor.preferences != [] ==>
          t.courseCount >= t.instructor.maxClasses ||
          forall k :: 0 <= k < |t.instructor.preferences| ==>
            Closed(courses, SectionsOf(courses), t.uniqueCourses, t.instructor.preferences[k]))
  }

  /**
    * Since a course held `list0` and `sections0`, every grant was appended to
    * its list, taken from its sections, and went to an instructor who listed it.
    */
  predicate GrantedSince(list0: seq<string>, sections0: nat, list: seq<string>, sections: nat,
                         course: string, instructors: seq<Instructor>) {
    && |list| + sections == |list0| + sections0
    && list0 <= list
    && forall k :: |list0| <= k < |list| ==> ListedBy(instructors, list[k], course)
  }

  lemma GrantedSinceStep(list0: seq<string>, sections0: nat, list: seq<string>, sections: nat,
                         course: string, instructors: seq<Instructor>, who: string, g: nat)
    requires GrantedSince(list0, sections0, list, sections, course, instructors)
    requires g <= sections
    requires g > 0 ==> ListedBy(instructors, who, course)
    ensures GrantedSince(list0, sections0, list + Repeat(who, g), sections - g, course, instructors)
  {
  }

  /** How the solver may change one course: grants appended to the list, taken from the count, to instructors who listed it. */
  twostate predicate CourseGrants(course: Course, instructors: seq<Instructor>)
    reads course
  {
    GrantedSince(old(course.assignedInstructors), old(course.sectionsAvailable),
                 course.assignedInstructors, course.sectionsAvailable, course.name, instructors)
  }

  /** The loop's facts about the trackers and courses, given the proposals made so far. */
  ghost predicate QueueState(instructors: seq<Instructor>, trackers: seq<AssignmentTracker>, courses: seq<Course>,
                             proposals: seq<nat>, lists0: seq<seq<string>>, sections0: seq<nat>)
    requires |trackers| == |instructors| == |proposals|
    requires |lists0| == |sections0| == |courses|
    reads trackers, courses
  {
    && (forall i :: 0 <= i < |trackers| ==> TrackerSound(trackers[i]))
    && (forall j :: 0 <= j < |courses| ==>
          GrantedSince(lists0[j], sections0[j], courses[j].assignedInstructors, courses[j].sectionsAvailable,
                       courses[j].name, instructors))
    && (forall i :: 0 <= i < |trackers| ==>
          proposals[i] <= |instructors[i].preferences| &&
          forall k :: 0 <= k < proposals[i] ==>
            Closed(courses, SectionsOf(courses), trackers[i].uniqueCourses, instructors[i].preferences[k]))
  }

  /**
    * One pass of the loop body for instructor `i` that still has room and an
    * untried preference: propose to that preference. Afterwards the loop's
    * facts hold again, and if `i` still has room, its proposal is closed to it.
    */
  method ProposeNext(instructors: seq<Instructor>, trackers: seq<AssignmentTracker>, courses: seq<Course>,
                     proposals: seq<nat>, ghost lists0: seq<seq<string>>, ghost sections0: seq<nat>, i: nat)
    returns (found: bool)
    requires |trackers| == |instructors| == |proposals| && i < |trackers|
    requires |lists0| == |sections0| == |courses|
    requires forall k :: 0 <= k < |trackers| ==> trackers[k].instructor == instructors[k]
    requires forall k, l :: 0 <= k < l < |trackers| ==> trackers[k] != trackers[l]
    requires DistinctRecords(courses)
    requires QueueState(instructors, trackers, courses, proposals, lists0, sections0)
    requires trackers[i].courseCount < instructors[i].maxClasses
    requires proposals[i] < |instructors[i].preferences|
    modifies trackers[i], courses
    ensures found == FindCourse(courses, instructors[i].preferences[proposals[i]]).Some?
    ensures QueueState(instructors, trackers, courses, proposals, lists0, sections0)
    ensures found && trackers[i].courseCount < instructors[i].maxClasses ==>
      Closed(courses, SectionsOf(courses), trackers[i].uniqueCourses, instructors[i].preferences[proposals[i]])
  {
    var tracker := trackers[i];
    var prefs := tracker.instructor.preferences;
    var preferred := prefs[proposals[i]];
    ghost var sections := SectionsOf(courses);
    ghost var lists := seq(|courses|, j requires 0 <= j < |courses| reads courses => courses[j].assignedInstructors);
    ghost var uniques := seq(|trackers|, k requires 0 <= k < |trackers| reads trackers => trackers[k].uniqueCourses);
    ghost var before := tracker.assignedCourses;
    found := Propose(tracker, courses, preferred);
    assert ListedBy(instructors, tracker.instructor.name, preferred) by {
      assert instructors[i].name == tracker.instructor.name && preferred in instructors[i].preferences;
    }
    forall j | 0 <= j < |courses|
      ensures GrantedSince(lists0[j], sections0[j], courses[j].assignedInstructors, courses[j].sectionsAvailable,
                           courses[j].name, instructors)
    {
      var g := if FindCourse(courses, preferred) == Some(j) then |tracker.assignedCourses| - |before| else 0;
      GrantedSinceStep(lists0[j], sections0[j], lists[j], sections[j], courses[j].name, instructors,
                       tracker.instructor.name, g);
    }
    forall k | 0 <= k < |tracker.assignedCourses|
      ensures tracker.assignedCourses[k] in prefs
    {
      if k < |before| {
        assert tracker.assignedCourses[k] == before[k];
      }
    }
    forall i', k | 0 <= i' < |trackers| && 0 <= k < proposals[i']
      ensures Closed(courses, SectionsOf(courses), trackers[i'].uniqueCourses, instructors[i'].preferences[k])
    {
      ClosedPersists(courses, sections, SectionsOf(courses), uniques[i'], trackers[i'].uniqueCourses,
                     instructors[i'].preferences[k]);
    }
  }

  /** A proposal that is closed to its instructor moves that instructor's cursor on without breaking the loop's facts. */
  lemma QueueStateAdvance(instructors: seq<Instructor>, trackers: seq<AssignmentTracker>, courses: seq<Course>,
                          proposals: seq<nat>, lists0: seq<seq<string>>, sections0: seq<nat>, i: nat)
    requires |trackers| == |instructors| == |proposals| && i < |trackers|
    requires |lists0| == |sections0| == |courses|
    requires QueueState(instructors, trackers, courses, proposals, lists0, sections0)
    requires proposals[i] < |instructors[i].preferences|
    requires Closed(courses, SectionsOf(courses), trackers[i].uniqueCourses, instructors[i].preferences[proposals[i]])
    ensures QueueState(instructors, trackers, courses, proposals[i := proposals[i] + 1], lists0, sections0)
  {
  }

  /** The queue may drop the tracker: no preferences, no room, or every preference tried. */
  predicate Exhausted(t: AssignmentTracker, proposals: nat)
    reads t
  {
    t.instructor.preferences == [] || t.courseCount >= t.instructor.maxClasses || proposals == |t.instructor.preferences|
  }

  /** The queue holds tracker positions, and every tracker left out of it is exhausted. */
  ghost predicate Queued(trackers: seq<AssignmentTracker>, proposals: seq<nat>, free: seq<nat>)
    requires |proposals| == |trackers|
    reads trackers
  {
    && (forall k :: 0 <= k < |free| ==> free[k] < |trackers|)
    && (forall i :: 0 <= i < |trackers| && i !in free ==> Exhausted(trackers[i], proposals[i]))
  }

  /** When no instructor is queued any more, every tracker is sound and unable to take more. */
  lemma QueueFinished(instructors: seq<Instructor>, trackers: seq<AssignmentTracker>, courses: seq<Course>,
                      proposals: seq<nat>, lists0: seq<seq<string>>, sections0: seq<nat>, finished: bool)
    requires |trackers| == |instructors| == |proposals|
    requires |lists0| == |sections0| == |courses|
    requires forall i :: 0 <= i < |trackers| ==> trackers[i].instructor == instructors[i]
    requires QueueState(instructors, trackers, courses, proposals, lists0, sections0)
    requires finished ==> Queued(trackers, proposals, [])
    ensures forall i :: 0 <= i < |trackers| ==> TrackerOutcome(trackers[i], courses, finished)
  {
  }

  /**
    * One turn of the queue loop: pop the first instructor and, when it has
    * preferences, room and an untried preference, propose to that preference
    * and requeue it at the back, its cursor moved on by one, while it still
    * has room; an instructor not requeued keeps its cursor and can propose no
    * more. `missing` is the preference that named no course, if any.
    */
  method Visit(instructors: seq<Instructor>, trackers: seq<AssignmentTracker>, courses: seq<Course>,
               proposals: seq<nat>, free: seq<nat>, ghost lists0: seq<seq<string>>, ghost sections0: seq<nat>,
               ghost lens: seq<nat>)
    returns (proposals': seq<nat>, free': seq<nat>, missing: Option<string>)
    requires |trackers| == |instructors| == |proposals| == |lens|
    requires |lists0| == |sections0| == |courses|
    requires forall k :: 0 <= k < |trackers| ==> trackers[k].instructor == instructors[k]
    requires forall k :: 0 <= k < |trackers| ==> lens[k] == |instructors[k].preferences|
    requires forall k, l :: 0 <= k < l < |trackers| ==> trackers[k] != trackers[l]
    requires DistinctRecords(courses)
    requires free != []
    requires QueueState(instructors, trackers, courses, proposals, lists0, sections0)
    requires Queued(trackers, proposals, free)
    modifies trackers[free[0]], courses
    ensures |proposals'| == |proposals|
    ensures QueueState(instructors, trackers, courses, proposals', lists0, sections0)
    ensures missing.None? ==> Queued(trackers, proposals', free')
    ensures missing.None? ==>
      var i := free[0];
      || (&& free' == free[1..] + [i]
          && proposals' == proposals[i := proposals[i] + 1]
          && trackers[i].courseCount < instructors[i].maxClasses)
      || (&& free' == free[1..]
          && proposals' == proposals
          && Exhausted(trackers[i], proposals[i]))
    ensures missing.None? ==> Slack(lens, proposals') + |free'| < Slack(lens, proposals) + |free|
    ensures missing.Some? ==> ReportsMissing(instructors, courses, NotFound(missing.value))
    ensures missing.Some? ==> !AllPreferencesListed(instructors, courses)
  {
    var i := free[0];
    free' := free[1..];
    proposals' := proposals;
    missing := None;
    var tracker := trackers[i];
    if tracker.instructor.preferences == [] {
      return;
    }
    if tracker.courseCount < tracker.instructor.maxClasses && proposals[i] < |tracker.instructor.preferences| {
      var found := ProposeNext(instructors, trackers, courses, proposals, lists0, sections0, i);
      if !found {
        MissingReported(instructors, courses, i, proposals[i]);
        return proposals, free, Some(tracker.instructor.preferences[proposals[i]]);
      }
      if tracker.courseCount < tracker.instructor.maxClasses {
        SlackStep(lens, proposals, i);
        QueueStateAdvance(instructors, trackers, courses, proposals, lists0, sections0, i);
        proposals' := proposals[i := proposals[i] + 1];
        free' := free' + [i];
      }
    }
  }

  /** The `while free_instructors` loop, over trackers created empty for the instructors. */
  method RunQueue(instructors: seq<Instructor>, trackers: seq<AssignmentTracker>, courses: seq<Course>)
    returns (result: Result<()>)
    requires |trackers| == |instructors|
    requires forall i :: 0 <= i < |trackers| ==> trackers[i].instructor == instructors[i]
    requires forall i :: 0 <= i < |trackers| ==> trackers[i].Valid() && trackers[i].assignedCourses == []
    requires forall i, j :: 0 <= i < j < |trackers| ==> trackers[i] != trackers[j]
    requires DistinctRecords(courses)
    modifies trackers, courses
    ensures forall i :: 0 <= i < |trackers| ==> TrackerOutcome(trackers[i], courses, result.Ok?)
    ensures forall j :: 0 <= j < |courses| ==> CourseGrants(courses[j], instructors)
    ensures AllPreferencesListed(instructors, courses) ==> result.Ok?
    ensures result.Err? ==> ReportsMissing(instructors, courses, result.message)
  {
    result := Ok(());
    var n := |trackers|;
    var proposals: seq<nat> := seq(n, _ => 0);
    var free: seq<nat> := seq(n, i requires 0 <= i => i);
    ghost var lens: seq<nat> := seq(n, i requires 0 <= i < n => |instructors[i].preferences|);
    ghost var lists0 := seq(|courses|, j requires 0 <= j < |courses| reads courses => courses[j].assignedInstructors);
    ghost var sections0 := SectionsOf(courses);
    forall i | 0 <= i < n ensures i in free {
      assert free[i] == i;
    }
    while free != []
      invariant |proposals| == n
      invariant QueueState(instructors, trackers, courses, proposals, lists0, sections0)
      invariant Queued(trackers, proposals, free)
      decreases Slack(lens, proposals) + |free|
    {
      var missing;
      proposals, free, missing := Visit(instructors, trackers, courses, proposals, free, lists0, sections0, lens);
      if missing.Some? {
        QueueFinished(instructors, trackers, courses, proposals, lists0, sections0, false);
        return Err(NotFound(missing.value));
      }
    }
    QueueFinished(instructors, trackers, courses, proposals, lists0, sections0, true);
  }

  /**
    * `stable_marriage_solver(instructors, courses)`. The new part of each
    * instructor's list is within its capacity, drawn from its own preferences,
    * spans at most two courses, and leaves it saturated; each course's list
    * and remaining sections move in step; a missing course raises KeyError
    * before any instructor is updated.
    */
  method StableMarriageSolver(instructors: seq<Instructor>, courses: seq<Course>) returns (result: Result<()>)
    requires DistinctInstructorNames(instructors)
    requires DistinctRecords(courses)
    modifies instructors, courses
    ensures forall j :: 0 <= j < |courses| ==> CourseGrants(courses[j], instructors)
    ensures AllPreferencesListed(instructors, courses) ==> result.Ok?
    ensures result.Err? ==> ReportsMissing(instructors, courses, result.message)
    ensures result.Err? ==> forall i :: 0 <= i < |instructors| ==>
      instructors[i].assignedCourses == old(instructors[i].assignedCourses) &&
      instructors[i].uniqueCourses == old(instructors[i].uniqueCourses)
    ensures result.Ok? ==> forall i :: 0 <= i < |instructors| ==>
      old(instructors[i].assignedCourses) <= instructors[i].assignedCourses
    ensures result.Ok? ==> forall i :: 0 <= i < |instructors| ==>
      var added := instructors[i].assignedCourses[old(|instructors[i].assignedCourses|)..];
      && |added| <= instructors[i].maxClasses
      && (forall k :: 0 <= k < |added| ==> added[k] in instructors[i].preferences)
      && |Elems(added)| <= 2
      && instructors[i].uniqueCourses == old(instructors[i].uniqueCourses) + Elems(added)
      && (instructors[i].preferences == [] ==> added == [])
      && (instructors[i].preferences != [] ==> Saturated(instructors[i], added, courses))
  {
    var trackers := NewTrackers(instructors);
    result := RunQueue(instructors, trackers, courses);
    if result.Err? {
      return;
    }
    MergeTrackers(instructors, trackers);
    forall i | 0 <= i < |instructors|
      ensures trackers[i].assignedCourses
           == instructors[i].assignedCourses[old(|instructors[i].assignedCourses|)..]
    {
    }
  }
}
