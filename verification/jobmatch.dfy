/**
  * The orchestrator of jobmatch/JobMatch.py: a `JobMatch` object holds the
  * instructor and course lists, recomputes the preference-ranking tables,
  * dispatches a solver by name and runs it on deep copies, so that the lists
  * it holds are never changed by solving.
  */
module Orchestrator {
  import opened Wrappers
  import opened Entities
  import opened Ranking
  import StableMarriage
  import Bipartite
  import LinearProgramRounds

  /** The three solving strategies `select_solver` knows. */
  datatype Strategy = StableMarriage | BipartiteMatching | LinearProgramming

  /** The name `solve` is called with for each strategy. */
  function StrategyName(s: Strategy): (r: string)
    ensures r != []
  {
    match s
    case StableMarriage => "stable_marriage"
    case BipartiteMatching => "bipartite_matching"
    case LinearProgramming => "linear_programming"
  }

  /** Distinct strategies have distinct names. */
  lemma StrategyNameInjective(s: Strategy, t: Strategy)
    requires StrategyName(s) == StrategyName(t)
    ensures s == t
  {
    match s
    case StableMarriage =>
      assert StrategyName(s)[0] == 's';
    case BipartiteMatching =>
      assert StrategyName(s)[0] == 'b';
    case LinearProgramming =>
      assert StrategyName(s)[0] == 'l';
  }

  /**
    * `select_solver(method)`: the strategy of that name, or the ValueError
    * `f"Unknown method: {method}"` for any other name.
    */
  function SelectSolver(name: string): (r: Result<Strategy>)
    ensures r.Ok? ==> StrategyName(r.value) == name
    ensures r.Err? <==> forall s: Strategy :: StrategyName(s) != name
    ensures r.Err? ==> r.message == "Unknown method: " + name
  {
    if name == "stable_marriage" then Ok(StableMarriage)
    else if name == "bipartite_matching" then Ok(BipartiteMatching)
    else if name == "linear_programming" then Ok(LinearProgramming)
    else Err("Unknown method: " + name)
  }

  /** Every strategy is selected by its own name and by no other. */
  lemma {:induction false} SelectSolverByName(s: Strategy, name: string)
    ensures SelectSolver(name) == Ok(s) <==> name == StrategyName(s)
  {
    if SelectSolver(name) == Ok(s) {
      assert StrategyName(s) == name;
    } else if name == StrategyName(s) {
      var r := SelectSolver(name);
      assert r.Ok?;
      StrategyNameInjective(r.value, s);
    }
  }

  /** What `preferences_with_ranks` holds: one table per instructor name, from the last instructor of that name. */
  predicate RankedBy(tables: map<string, seq<Preference>>, instructors: seq<Instructor>, courses: seq<Course>) {
    && tables.Keys == NamesOf(instructors, |instructors|)
    && forall i :: 0 <= i < |instructors| && LastWithName(instructors, i, |instructors|) ==>
         IsRankingTable(tables[instructors[i].name], instructors[i].preferences, CourseNames(courses))
  }

  /** Among the first `bound` instructors, the last one named `name`. */
  lemma {:induction false} LastNamed(instructors: seq<Instructor>, name: string, bound: nat) returns (i: nat)
    requires bound <= |instructors|
    requires name in NamesOf(instructors, bound)
    ensures i < bound && instructors[i].name == name
    ensures forall j :: i < j < bound ==> instructors[j].name != name
  {
    if instructors[bound - 1].name == name {
      i := bound - 1;
    } else {
      var w :| 0 <= w < bound && instructors[w].name == name;
      assert name in NamesOf(instructors, bound - 1);
      i := LastNamed(instructors, name, bound - 1);
    }
  }

  /** `rank_order_preferences` is deterministic: two tables it may leave are the same table. */
  lemma RankedByUnique(t1: map<string, seq<Preference>>, t2: map<string, seq<Preference>>,
                       instructors: seq<Instructor>, courses: seq<Course>)
    requires RankedBy(t1, instructors, courses) && RankedBy(t2, instructors, courses)
    ensures t1 == t2
  {
    forall name | name in t1
      ensures t1[name] == t2[name]
    {
      var i := LastNamed(instructors, name, |instructors|);
      RankingTableUnique(t1[name], t2[name], instructors[i].preferences, CourseNames(courses));
    }
  }

  /** The fields a deep copy of an instructor reproduces. */
  predicate SameInstructor(copy: Instructor, original: Instructor)
    reads copy, original
  {
    && copy.name == original.name && copy.maxClasses == original.maxClasses
    && copy.degree == original.degree && copy.preferences == original.preferences
    && copy.assignedCourses == original.assignedCourses && copy.uniqueCourses == original.uniqueCourses
  }

  /** The fields a deep copy of a course reproduces. */
  predicate SameCourse(copy: Course, original: Course)
    reads copy, original
  {
    && copy.name == original.name && copy.courseId == original.courseId
    && copy.description == original.description && copy.courseDirector == original.courseDirector
    && copy.sectionsAvailable == original.sectionsAvailable
    && copy.assignedInstructors == original.assignedInstructors
  }

  /** `copy.deepcopy(instructors)`: new records, one per original, with equal fields. */
  method CopyInstructors(instructors: seq<Instructor>) returns (copies: seq<Instructor>)
    ensures |copies| == |instructors|
    ensures forall i :: 0 <= i < |instructors| ==> fresh(copies[i]) && SameInstructor(copies[i], instructors[i])
    ensures forall i, j :: 0 <= i < j < |copies| ==> copies[i] != copies[j]
  {
    copies := [];
    for k := 0 to |instructors|
      invariant |copies| == k
      invariant forall i :: 0 <= i < k ==> fresh(copies[i]) && SameInstructor(copies[i], instructors[i])
      invariant forall i, j :: 0 <= i < j < k ==> copies[i] != copies[j]
    {
      var original := instructors[k];
      var copy := new Instructor(original.name, original.maxClasses, original.degree, original.preferences,
                                 original.assignedCourses, original.uniqueCourses);
      copies := copies + [copy];
    }
  }

  /** `copy.deepcopy(courses)`: new records, one per original, with equal fields. */
  method CopyCourses(courses: seq<Course>) returns (copies: seq<Course>)
    ensures |copies| == |courses|
    ensures forall j :: 0 <= j < |courses| ==> fresh(copies[j]) && SameCourse(copies[j], courses[j])
    ensures forall i, j :: 0 <= i < j < |copies| ==> copies[i] != copies[j]
  {
    copies := [];
    for k := 0 to |courses|
      invariant |copies| == k
      invariant forall j :: 0 <= j < k ==> fresh(copies[j]) && SameCourse(copies[j], courses[j])
      invariant forall i, j :: 0 <= i < j < k ==> copies[i] != copies[j]
    {
      var original := courses[k];
      var copy := new Course(original.name, original.courseId, original.description, original.sectionsAvailable,
                             original.assignedInstructors, original.courseDirector);
      copies := copies + [copy];
    }
  }

  /** Copies with equal names keep the originals' distinct names. */
  lemma CopiedNamesDistinct(copies: seq<Instructor>, instructors: seq<Instructor>)
    requires |copies| == |instructors|
    requires forall i :: 0 <= i < |instructors| ==> copies[i].name == instructors[i].name
    requires DistinctInstructorNames(instructors)
    ensures DistinctInstructorNames(copies)
  {
  }

  /** `create_preference_tuples([instructor], courses)[instructor.name]`: that instructor's table. */
  method TableOf(instructor: Instructor, courses: seq<Course>) returns (table: seq<Preference>)
    ensures IsRankingTable(table, instructor.preferences, CourseNames(courses))
  {
    var single := CreatePreferenceTuples([instructor], courses);
    assert instructor.name in NamesOf([instructor], 1) by {
      assert [instructor][0].name == instructor.name;
    }
    assert LastWithName([instructor], 0, 1);
    table := single[instructor.name];
  }

  /** One more instructor adds its name. */
  lemma NamesOfNext(instructors: seq<Instructor>, k: nat)
    requires k < |instructors|
    ensures NamesOf(instructors, k + 1) == NamesOf(instructors, k) + {instructors[k].name}
  {
  }

  /** The records a solver wrapper ran on and returns. */
  datatype Solved = Solved(instructors: seq<Instructor>, courses: seq<Course>)

  class JobMatch {
    const instructors: seq<Instructor>
    const courses: seq<Course>
    var preferencesWithRanks: map<string, seq<Preference>>

    /** Lines 60-61: the two lists are stored, and nothing is assigned. */
    constructor (instructors: seq<Instructor>, courses: seq<Course>)
      ensures this.instructors == instructors && this.courses == courses
      ensures preferencesWithRanks == map[]
    {
      this.instructors := instructors;
      this.courses := courses;
      preferencesWithRanks := map[];
    }

    /**
      * Lines 63-68: each instructor's table, computed by
      * `create_preference_tuples([instructor], courses)`, stored under its
      * name; a later instructor of the same name overwrites an earlier one.
      */
    method RankOrderPreferences()
      modifies this
      ensures RankedBy(preferencesWithRanks, instructors, courses)
    {
      var tables := map[];
      for k := 0 to |instructors|
        invariant tables.Keys == NamesOf(instructors, k)
        invariant forall i :: 0 <= i < k && LastWithName(instructors, i, k) ==>
          IsRankingTable(tables[instructors[i].name], instructors[i].preferences, CourseNames(courses))
      {
        var table := TableOf(instructors[k], courses);
        NamesOfNext(instructors, k);
        tables := tables[instructors[k].name := table];
      }
      preferencesWithRanks := tables;
    }

    /** Lines 88-101: the stable-marriage solver on deep copies; the stored records are untouched. */
    method StableMarriageSolver() returns (r: Result<()>, solved: Solved)
      requires DistinctInstructorNames(instructors)
      ensures |solved.instructors| == |instructors| && |solved.courses| == |courses|
      ensures forall i :: 0 <= i < |instructors| ==> fresh(solved.instructors[i])
      ensures forall j :: 0 <= j < |courses| ==> fresh(solved.courses[j])
      ensures StableMarriage.AllPreferencesListed(instructors, courses) ==> r.Ok?
    {
      var copies := CopyInstructors(instructors);
      var courseCopies := CopyCourses(courses);
      CopiedNamesDistinct(copies, instructors);
      assert StableMarriage.AllPreferencesListed(instructors, courses) ==>
             StableMarriage.AllPreferencesListed(copies, courseCopies);
      r := StableMarriage.StableMarriageSolver(copies, courseCopies);
      solved := Solved(copies, courseCopies);
    }

    /** Lines 103-122: the bipartite solver on deep copies, `matcher` standing for networkx. */
    method BipartiteMatchingSolver(weighted: bool, matcher: Bipartite.Graph -> seq<(string, string)>)
      returns (r: Result<seq<Bipartite.Graph>>, solved: Solved)
      requires DistinctInstructorNames(instructors)
      ensures |solved.instructors| == |instructors| && |solved.courses| == |courses|
      ensures forall i :: 0 <= i < |instructors| ==> fresh(solved.instructors[i])
      ensures forall j :: 0 <= j < |courses| ==> fresh(solved.courses[j])
    {
      var copies := CopyInstructors(instructors);
      var courseCopies := CopyCourses(courses);
      CopiedNamesDistinct(copies, instructors);
      r := Bipartite.IterativeBipartiteMatchingSolver(copies, courseCopies, weighted, matcher);
      solved := Solved(copies, courseCopies);
    }

    /** Lines 124-142: the linear-programming solver on deep copies, `choose` standing for its solutions. */
    method IterativeLinearProgrammingSolver(choose: (nat, string, string) -> bool) returns (solved: Solved)
      requires DistinctInstructorNames(instructors)
      ensures |solved.instructors| == |instructors| && |solved.courses| == |courses|
      ensures forall i :: 0 <= i < |instructors| ==> fresh(solved.instructors[i])
      ensures forall j :: 0 <= j < |courses| ==> fresh(solved.courses[j])
    {
      var copies := CopyInstructors(instructors);
      var courseCopies := CopyCourses(courses);
      CopiedNamesDistinct(copies, instructors);
      LinearProgramRounds.IterativeLinearProgrammingSolver(copies, courseCopies, choose);
      solved := Solved(copies, courseCopies);
    }

    /**
      * Lines 144-167: the tables are recomputed first, then the solver is
      * chosen by name (an unknown name raises after the tables are set) and
      * run on copies. The stored instructor and course records are the same
      * after solving as before.
      */
    method Solve(name: string, weighted: bool, matcher: Bipartite.Graph -> seq<(string, string)>,
                 choose: (nat, string, string) -> bool)
      returns (r: Result<()>, solved: Solved)
      requires DistinctInstructorNames(instructors)
      modifies this
      ensures RankedBy(preferencesWithRanks, instructors, courses)
      ensures SelectSolver(name).Err? ==> r == Err("Unknown method: " + name)
      ensures forall i :: 0 <= i < |instructors| ==>
        && instructors[i].assignedCourses == old(instructors[i].assignedCourses)
        && instructors[i].uniqueCourses == old(instructors[i].uniqueCourses)
      ensures forall j :: 0 <= j < |courses| ==>
        && courses[j].sectionsAvailable == old(courses[j].sectionsAvailable)
        && courses[j].assignedInstructors == old(courses[j].assignedInstructors)
    {
      RankOrderPreferences();
      var strategy := SelectSolver(name);
      if strategy.Err? {
        return Err(strategy.message), Solved([], []);
      }
      match strategy.value
      case StableMarriage =>
        r, solved := StableMarriageSolver();
      case BipartiteMatching =>
        var graphs;
        graphs, solved := BipartiteMatchingSolver(weighted, matcher);
        r := if graphs.Ok? then Ok(()) else Err(graphs.message);
      case LinearProgramming =>
        solved := IterativeLinearProgrammingSolver(choose);
        r := Ok(());
    }
  }
}
