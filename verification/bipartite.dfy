/**
  * jobmatch/bipartite_graph_match.py: `build_network`, the weighted bipartite
  * graph between instructors and course sections, and
  * `iterative_bipartite_matching_solver`, which repeatedly matches the
  * still-eligible instructors and sections and commits the matched pairs.
  *
  * The maximum-weight matching itself is a foreign call; the solver takes it
  * as an oracle `matcher` that may return any pairs at all. Edge weights are
  * exact rationals (`real`).
  */
module Bipartite {
  import opened Wrappers
  import opened Text
  import opened Entities
  import Ranking

  /** An edge between an instructor node and a course-section node. */
  datatype Edge = Edge(instructor: string, section: string, weight: real)

  /** The graph `build_network` builds: the two node lists and the edges, each in insertion order. */
  datatype Graph = Graph(instructorNodes: seq<string>, sectionNodes: seq<string>, edges: seq<Edge>)

  /** `f"{name}_{k}"`. */
  function SectionNode(name: string, k: nat): string {
    name + "_" + NatToString(k)
  }

  /** `[f"{course.name}_{i+1}" for i in range(course.sections_available)]`. */
  function SectionBlock(name: string, n: nat): (r: seq<string>)
    ensures |r| == n
    ensures forall i :: 0 <= i < n ==> r[i] == SectionNode(name, i + 1)
  {
    seq(n, i requires 0 <= i < n => SectionNode(name, i + 1))
  }

  /** The section node names for courses `names` with `sections` remaining: one block per course, in order. */
  function NodesOf(names: seq<string>, sections: seq<nat>): seq<string>
    requires |names| == |sections|
  {
    if names == [] then []
    else NodesOf(names[..|names| - 1], sections[..|names| - 1])
         + SectionBlock(names[|names| - 1], sections[|names| - 1])
  }

  /** `course_names` of `build_network`. */
  function SectionNodes(courses: seq<Course>): seq<string>
    reads courses
  {
    NodesOf(CourseNames(courses), SectionsOf(courses))
  }

  /** The number of sections of the courses before `j`. */
  function Offset(sections: seq<nat>, j: nat): nat
    requires j <= |sections|
  {
    Sum(sections[..j])
  }

  lemma {:induction false} SumSnoc(s: seq<nat>)
    requires s != []
    ensures Sum(s) == Sum(s[..|s| - 1]) + s[|s| - 1]
  {
    if |s| > 1 {
      SumSnoc(s[1..]);
      assert s[1..][..|s[1..]| - 1] == s[..|s| - 1][1..];
    }
  }

  /**
    * There is one node per remaining section, and the block of course `j`,
    * `name_1 ... name_k`, sits at the number of sections before it.
    */
  lemma {:induction false} NodesOfLayout(names: seq<string>, sections: seq<nat>)
    requires |names| == |sections|
    ensures |NodesOf(names, sections)| == Sum(sections)
    ensures forall j :: 0 <= j < |names| ==>
      Offset(sections, j) + sections[j] <= |NodesOf(names, sections)| &&
      NodesOf(names, sections)[Offset(sections, j)..Offset(sections, j) + sections[j]] == SectionBlock(names[j], sections[j])
  {
    if names != [] {
      var n := |names| - 1;
      var initNames, initSections := names[..n], sections[..n];
      var nodes, initNodes := NodesOf(names, sections), NodesOf(initNames, initSections);
      NodesOfLayout(initNames, initSections);
      SumSnoc(sections);
      forall j | 0 <= j < |names|
        ensures Offset(sections, j) + sections[j] <= |nodes|
        ensures nodes[Offset(sections, j)..Offset(sections, j) + sections[j]] == SectionBlock(names[j], sections[j])
      {
        var block := SectionBlock(names[n], sections[n]);
        assert nodes == initNodes + block;
        if j < n {
          assert sections[..j] == initSections[..j];
          assert initNames[j] == names[j] && initSections[j] == sections[j];
          SliceOfPrefix(initNodes, block, Offset(sections, j), Offset(sections, j) + sections[j]);
        } else {
          assert sections[..j] == initSections;
          assert (initNodes + block)[|initNodes|..] == block;
        }
      }
    }
  }

  /** `s.split('_')[0]`: everything before the first underscore. */
  function SplitBase(s: string): (r: string)
    ensures r <= s && '_' !in r
    ensures |r| < |s| ==> s[|r|] == '_'
  {
    if s == [] || s[0] == '_' then [] else [s[0]] + SplitBase(s[1..])
  }

  /** A course name without an underscore is recovered from each of its section nodes. */
  lemma {:induction false} SplitBaseOfNode(name: string, k: nat)
    requires '_' !in name
    ensures SplitBase(SectionNode(name, k)) == name
  {
    if name != [] {
      assert SectionNode(name, k)[1..] == SectionNode(name[1..], k);
      SplitBaseOfNode(name[1..], k);
    }
  }

  /** A course name with an underscore is not: the section node of `PS_211` splits to `PS`. */
  lemma SplitBaseOfUnderscoredName()
    ensures SplitBase(SectionNode("PS_211", 1)) == "PS"
  {
    var node := SectionNode("PS_211", 1);
    assert node == "PS_211_1";
    assert node[2] == '_';
    assert SplitBase(node[2..]) == [];
    assert SplitBase(node[1..]) == "S";
  }

  /**
    * `preference_rank`: the reciprocal of the 1-based position of `base` in
    * `prefs`, or of the node count plus one when it is not listed.
    */
  function PreferenceRank(prefs: seq<string>, base: string, nodeCount: nat): (w: real)
    ensures 0.0 < w <= 1.0
  {
    if base in prefs then 1.0 / (Ranking.MatchRank(prefs, base) as real) else 1.0 / ((nodeCount + 1) as real)
  }

  /** The weight of an edge; `instructor_weighted` adds the reciprocal of the instructor's 1-based position. */
  function EdgeWeight(prefs: seq<string>, base: string, nodeCount: nat, rank: nat, weighted: bool): (w: real)
    requires rank >= 1
    ensures 0.0 < w
  {
    if weighted then PreferenceRank(prefs, base, nodeCount) + 1.0 / (rank as real)
    else PreferenceRank(prefs, base, nodeCount)
  }

  /** A course listed first at 0-based index `i` weighs `1/(i+1)`. */
  lemma ListedWeight(prefs: seq<string>, i: nat, nodeCount: nat)
    requires i < |prefs| && prefs[i] !in prefs[..i]
    ensures PreferenceRank(prefs, prefs[i], nodeCount) == 1.0 / ((i + 1) as real)
  {
  }

  /** A course not listed weighs `1/(#section nodes + 1)`. */
  lemma UnlistedWeight(prefs: seq<string>, base: string, nodeCount: nat)
    requires base !in prefs
    ensures PreferenceRank(prefs, base, nodeCount) == 1.0 / ((nodeCount + 1) as real)
  {
  }

  /** An earlier preference weighs strictly more than a later one. */
  lemma EarlierWeighsMore(prefs: seq<string>, i: nat, j: nat, nodeCount: nat)
    requires i < j < |prefs|
    requires prefs[i] !in prefs[..i] && prefs[j] !in prefs[..j]
    ensures PreferenceRank(prefs, prefs[i], nodeCount) > PreferenceRank(prefs, prefs[j], nodeCount)
  {
    ListedWeight(prefs, i, nodeCount);
    ListedWeight(prefs, j, nodeCount);
    ReciprocalDecreasing((i + 1) as real, (j + 1) as real);
  }

  lemma ReciprocalDecreasing(a: real, b: real)
    requires 0.0 < a < b
    ensures 1.0 / a > 1.0 / b
  {
    assert (1.0 / a) * a == 1.0 && (1.0 / b) * b == 1.0;
    assert (1.0 / a - 1.0 / b) * (a * b) == b - a;
  }

  /**
    * `instructor_ranks[name]`: the 1-based position of the last instructor
    * with that name, since a later dictionary entry overwrites an earlier one;
    * 0 when there is none.
    */
  function RankOf(instructors: seq<Instructor>, name: string): (r: nat)
    ensures r <= |instructors|
    ensures r > 0 ==> instructors[r - 1].name == name
    ensures forall j :: r <= j < |instructors| ==> instructors[j].name != name
    ensures r == 0 <==> forall j :: 0 <= j < |instructors| ==> instructors[j].name != name
  {
    if instructors == [] then 0
    else if instructors[|instructors| - 1].name == name then |instructors|
    else RankOf(instructors[..|instructors| - 1], name)
  }

  /** The edges of one instructor with preferences: one to every section node, in node order. */
  function InstructorEdges(inst: Instructor, rank: nat, nodes: seq<string>, weighted: bool): (r: seq<Edge>)
    requires rank >= 1
    ensures |r| == |nodes|
  {
    seq(|nodes|, j requires 0 <= j < |nodes| =>
      Edge(inst.name, nodes[j], EdgeWeight(inst.preferences, SplitBase(nodes[j]), |nodes|, rank, weighted)))
  }

  /** The blocks of a list, concatenated in order. */
  function Flatten<T>(blocks: seq<seq<T>>): seq<T> {
    if blocks == [] then [] else Flatten(blocks[..|blocks| - 1]) + blocks[|blocks| - 1]
  }

  lemma {:induction false} FlattenAppend<T>(a: seq<seq<T>>, b: seq<seq<T>>)
    ensures Flatten(a + b) == Flatten(a) + Flatten(b)
  {
    if b != [] {
      var last := |b| - 1;
      assert (a + b)[..|a + b| - 1] == a + b[..last];
      FlattenAppend(a, b[..last]);
    } else {
      assert a + b == a;
    }
  }

  /** Block `i` of a flattened list sits right after the blocks before it. */
  lemma FlattenBlock<T>(blocks: seq<seq<T>>, i: nat)
    requires i < |blocks|
    ensures |Flatten(blocks[..i])| + |blocks[i]| <= |Flatten(blocks)|
    ensures Flatten(blocks)[|Flatten(blocks[..i])|..|Flatten(blocks[..i])| + |blocks[i]|] == blocks[i]
  {
    var head := blocks[..i + 1];
    assert blocks == head + blocks[i + 1..];
    FlattenAppend(head, blocks[i + 1..]);
    assert head[..i] == blocks[..i];
    var prefix := Flatten(head);
    assert prefix == Flatten(blocks[..i]) + blocks[i];
    SliceOfPrefix(prefix, Flatten(blocks[i + 1..]), |Flatten(blocks[..i])|, |prefix|);
  }

  lemma SliceOfPrefix<T>(a: seq<T>, b: seq<T>, lo: nat, hi: nat)
    requires lo <= hi <= |a|
    ensures (a + b)[lo..hi] == a[lo..hi]
  {
    assert (a + b)[..|a|] == a;
  }

  /** The edges `build_network` adds for each instructor, in instructor order: none for one without preferences. */
  function EdgeBlocks(instructors: seq<Instructor>, nodes: seq<string>, weighted: bool): (r: seq<seq<Edge>>)
    ensures |r| == |instructors|
  {
    seq(|instructors|, i requires 0 <= i < |instructors| =>
      if instructors[i].preferences == [] then []
      else InstructorEdges(instructors[i], RankOf(instructors, instructors[i].name), nodes, weighted))
  }

  /** `build_network(instructors, courses, instructor_weighted)`. */
  function BuildNetwork(instructors: seq<Instructor>, courses: seq<Course>, weighted: bool): Graph
    reads courses
  {
    var nodes := SectionNodes(courses);
    Graph(InstructorNames(instructors), nodes,
          Flatten(EdgeBlocks(instructors, nodes, weighted)))
  }

  /** Every element of a flattened list comes from one of its blocks. */
  lemma {:induction false} FlattenMember<T>(blocks: seq<seq<T>>, x: T) returns (i: nat)
    requires x in Flatten(blocks)
    ensures i < |blocks| && x in blocks[i]
  {
    var last := |blocks| - 1;
    if x in blocks[last] {
      i := last;
    } else {
      i := FlattenMember(blocks[..last], x);
    }
  }

  /** With distinct names, an instructor's rank is its 1-based position. */
  lemma RankOfDistinct(instructors: seq<Instructor>, i: nat)
    requires DistinctInstructorNames(instructors) && i < |instructors|
    ensures RankOf(instructors, instructors[i].name) == i + 1
  {
  }

  /**
    * The section nodes: one per remaining section, the block
    * `name_1 ... name_k` of each course at the number of sections before it.
    */
  lemma NetworkNodes(instructors: seq<Instructor>, courses: seq<Course>, weighted: bool)
    ensures var g := BuildNetwork(instructors, courses, weighted);
      && |g.instructorNodes| == |instructors|
      && (forall i :: 0 <= i < |instructors| ==> g.instructorNodes[i] == instructors[i].name)
      && |g.sectionNodes| == Sum(SectionsOf(courses))
      && forall j :: 0 <= j < |courses| ==>
           var start := Offset(SectionsOf(courses), j);
           start + courses[j].sectionsAvailable <= |g.sectionNodes| &&
           g.sectionNodes[start..start + courses[j].sectionsAvailable]
             == SectionBlock(courses[j].name, courses[j].sectionsAvailable)
  {
    NodesOfLayout(CourseNames(courses), SectionsOf(courses));
  }

  /**
    * An instructor with preferences is joined to every section node, in node
    * order, by an edge whose weight its preference for the node's course and
    * its own 1-based position give; the edges of the instructors before it
    * come first.
    */
  lemma NetworkJoinsEverySection(instructors: seq<Instructor>, courses: seq<Course>, weighted: bool, i: nat)
    requires DistinctInstructorNames(instructors)
    requires i < |instructors| && instructors[i].preferences != []
    ensures var g := BuildNetwork(instructors, courses, weighted);
      var start := |Flatten(EdgeBlocks(instructors, g.sectionNodes, weighted)[..i])|;
      && start + |g.sectionNodes| <= |g.edges|
      && g.edges[start..start + |g.sectionNodes|] == InstructorEdges(instructors[i], i + 1, g.sectionNodes, weighted)
  {
    EdgesJoin(instructors, SectionNodes(courses), weighted, i);
  }

  lemma EdgesJoin(instructors: seq<Instructor>, nodes: seq<string>, weighted: bool, i: nat)
    requires DistinctInstructorNames(instructors)
    requires i < |instructors| && instructors[i].preferences != []
    ensures var blocks := EdgeBlocks(instructors, nodes, weighted);
      var start := |Flatten(blocks[..i])|;
      && start + |nodes| <= |Flatten(blocks)|
      && Flatten(blocks)[start..start + |nodes|] == InstructorEdges(instructors[i], i + 1, nodes, weighted)
  {
    var blocks := EdgeBlocks(instructors, nodes, weighted);
    EdgeBlockOf(instructors, nodes, weighted, i);
    FlattenBlock(blocks, i);
  }

  lemma EdgeBlockOf(instructors: seq<Instructor>, nodes: seq<string>, weighted: bool, i: nat)
    requires DistinctInstructorNames(instructors)
    requires i < |instructors| && instructors[i].preferences != []
    ensures EdgeBlocks(instructors, nodes, weighted)[i] == InstructorEdges(instructors[i], i + 1, nodes, weighted)
  {
    RankOfDistinct(instructors, i);
  }

  /** Every edge joins an instructor that has preferences to a section node. */
  lemma EdgeOwner(instructors: seq<Instructor>, nodes: seq<string>, weighted: bool, e: Edge) returns (owner: nat)
    requires e in Flatten(EdgeBlocks(instructors, nodes, weighted))
    ensures owner < |instructors| && instructors[owner].preferences != []
    ensures e.instructor == instructors[owner].name && e.section in nodes
  {
    var blocks := EdgeBlocks(instructors, nodes, weighted);
    owner := FlattenMember(blocks, e);
    var block := blocks[owner];
    var k :| 0 <= k < |block| && block[k] == e;
    InstructorEdgesAt(instructors[owner], RankOf(instructors, instructors[owner].name), nodes, weighted, k);
  }

  /** An instructor without preferences gets no edge at all. */
  lemma NetworkSkipsEmptyPreferences(instructors: seq<Instructor>, courses: seq<Course>, weighted: bool, i: nat)
    requires DistinctInstructorNames(instructors)
    requires i < |instructors| && instructors[i].preferences == []
    ensures forall e :: e in BuildNetwork(instructors, courses, weighted).edges ==> e.instructor != instructors[i].name
  {
    var nodes := SectionNodes(courses);
    forall e | e in Flatten(EdgeBlocks(instructors, nodes, weighted))
      ensures e.instructor != instructors[i].name
    {
      var owner := EdgeOwner(instructors, nodes, weighted, e);
    }
  }

  /** One edge of an instructor's block. */
  lemma InstructorEdgesAt(inst: Instructor, rank: nat, nodes: seq<string>, weighted: bool, j: nat)
    requires rank >= 1 && j < |nodes|
    ensures InstructorEdges(inst, rank, nodes, weighted)[j]
         == Edge(inst.name, nodes[j], EdgeWeight(inst.preferences, SplitBase(nodes[j]), |nodes|, rank, weighted))
  {
  }

  /** `tracker.course_count < max_classes and len(tracker.unique_courses) < 2`, on an instructor's load. */
  predicate OpenLoad(inst: Instructor, load: seq<string>) {
    |load| < inst.maxClasses && |Elems(load)| < 2
  }

  /** The assigned list of each tracker, in tracker order. */
  function Loads(trackers: seq<AssignmentTracker>): (r: seq<seq<string>>)
    reads trackers
    ensures |r| == |trackers|
    ensures forall i :: 0 <= i < |trackers| ==> r[i] == trackers[i].assignedCourses
  {
    seq(|trackers|, i requires 0 <= i < |trackers| reads trackers => trackers[i].assignedCourses)
  }

  /** `eligible_instructors`: the instructors, in order, whose trackers still have room under both caps. */
  function EligibleInstructors(instructors: seq<Instructor>, loads: seq<seq<string>>): (r: seq<Instructor>)
    requires |loads| == |instructors|
    ensures |r| <= |instructors|
  {
    if instructors == [] then []
    else
      var n := |instructors| - 1;
      EligibleInstructors(instructors[..n], loads[..n])
      + if OpenLoad(instructors[n], loads[n]) then [instructors[n]] else []
  }

  /** Exactly the instructors with an open load are eligible; none is when no load is open. */
  lemma {:induction false} EligibleInstructorsSpec(instructors: seq<Instructor>, loads: seq<seq<string>>)
    requires |loads| == |instructors|
    ensures forall i :: 0 <= i < |instructors| && OpenLoad(instructors[i], loads[i]) ==>
      instructors[i] in EligibleInstructors(instructors, loads)
    ensures forall x :: x in EligibleInstructors(instructors, loads) ==>
      exists i :: 0 <= i < |instructors| && instructors[i] == x && OpenLoad(x, loads[i])
    ensures EligibleInstructors(instructors, loads) == [] <==>
      forall i :: 0 <= i < |instructors| ==> !OpenLoad(instructors[i], loads[i])
  {
    if instructors != [] {
      var n := |instructors| - 1;
      EligibleInstructorsSpec(instructors[..n], loads[..n]);
      var init := EligibleInstructors(instructors[..n], loads[..n]);
      forall x | x in EligibleInstructors(instructors, loads)
        ensures exists i :: 0 <= i < |instructors| && instructors[i] == x && OpenLoad(x, loads[i])
      {
        if x in init {
          var i :| 0 <= i < n && instructors[..n][i] == x && OpenLoad(x, loads[..n][i]);
          assert instructors[i] == x && OpenLoad(x, loads[i]);
        } else {
          assert instructors[n] == x && OpenLoad(x, loads[n]);
        }
      }
      forall i | 0 <= i < |instructors| && OpenLoad(instructors[i], loads[i])
        ensures instructors[i] in EligibleInstructors(instructors, loads)
      {
        if i < n {
          assert instructors[..n][i] == instructors[i] && loads[..n][i] == loads[i];
        }
      }
    }
  }

  /**
    * Which tracker and course a matched pair `(u, v)` names: `u` is looked up
    * among the instructors first, else `v` is (KeyError when it is not one),
    * and the course is the first whose name is the other node's part before
    * its first underscore (StopIteration when there is none).
    */
  function Resolve(instructors: seq<Instructor>, courses: seq<Course>, pair: (string, string)): (r: Result<(nat, nat)>)
    ensures r.Ok? ==> r.value.0 < |instructors| && r.value.1 < |courses|
    ensures r.Ok? ==>
      if FindInstructor(instructors, pair.0).Some?
      then instructors[r.value.0].name == pair.0 && FindCourse(courses, SplitBase(pair.1)) == Some(r.value.1)
      else instructors[r.value.0].name == pair.1 && FindCourse(courses, SplitBase(pair.0)) == Some(r.value.1)
    ensures r.Err? <==>
      if FindInstructor(instructors, pair.0).Some?
      then FindCourse(courses, SplitBase(pair.1)).None?
      else FindInstructor(instructors, pair.1).None? || FindCourse(courses, SplitBase(pair.0)).None?
  {
    var (u, v) := pair;
    var who, node :=
      if FindInstructor(instructors, u).Some? then FindInstructor(instructors, u) else FindInstructor(instructors, v),
      if FindInstructor(instructors, u).Some? then v else u;
    if who.None? then Err("KeyError: " + v)
    else match FindCourse(courses, SplitBase(node))
      case None => Err("StopIteration")
      case Some(j) => Ok((who.value, j))
  }

  /**
    * The sections committing a course to an instructor with load `load`
    * grants: `min(max_classes - course_count, sections_available)` when
    * `can_assign` allows the course, none otherwise.
    */
  function Slots(inst: Instructor, load: seq<string>, course: string, sections: nat): (n: int)
    ensures |load| <= inst.maxClasses ==> n >= 0
    ensures n > 0 <==> |load| < inst.maxClasses && sections > 0 && (|Elems(load)| < 2 || course in Elems(load))
  {
    if Teachable(|load|, Elems(load), inst.maxClasses, inst.degree, course)
    then Min(inst.maxClasses - |load|, sections) else 0
  }

  /** What committing a resolvable pair would grant, given the loads and sections left. */
  function PairSlots(instructors: seq<Instructor>, loads: seq<seq<string>>, courses: seq<Course>, sections: seq<nat>,
                     pair: (string, string)): int
    requires |loads| == |instructors| && |sections| == |courses|
    requires Resolve(instructors, courses, pair).Ok?
  {
    var (i, j) := Resolve(instructors, courses, pair).value;
    Slots(instructors[i], loads[i], courses[j].name, sections[j])
  }

  /** A matched pair that resolves and whose commit would grant nothing. */
  predicate PairIdle(instructors: seq<Instructor>, loads: seq<seq<string>>, courses: seq<Course>, sections: seq<nat>,
                     pair: (string, string))
    requires |loads| == |instructors| && |sections| == |courses|
  {
    Resolve(instructors, courses, pair).Ok? && PairSlots(instructors, loads, courses, sections, pair) <= 0
  }

  /**
    * Why the round loop stopped: no instructor has room, no course has a
    * section left, or the last graph's matching granted nothing.
    */
  predicate Stopped(instructors: seq<Instructor>, loads: seq<seq<string>>, courses: seq<Course>, sections: seq<nat>,
                    graphs: seq<Graph>, matcher: Graph -> seq<(string, string)>)
    requires |loads| == |instructors| && |sections| == |courses|
  {
    || (forall i :: 0 <= i < |instructors| ==> !OpenLoad(instructors[i], loads[i]))
    || (forall j :: 0 <= j < |courses| ==> sections[j] == 0)
    || (graphs != [] && AllIdle(instructors, loads, courses, sections, matcher(graphs[|graphs| - 1])))
  }

  /** The trackers are distinct objects. */
  predicate DistinctTrackers(trackers: seq<AssignmentTracker>) {
    forall i, j :: 0 <= i < j < |trackers| ==> trackers[i] != trackers[j]
  }

  /** The solver's state: every tracker belongs to its instructor and keeps its caps, and the books are kept. */
  ghost predicate SolverState(instructors: seq<Instructor>, trackers: seq<AssignmentTracker>, courses: seq<Course>,
                              lists0: seq<seq<string>>, sections0: seq<nat>)
    requires |trackers| == |instructors| && |lists0| == |sections0| == |courses|
    reads trackers, courses
  {
    && (forall i :: 0 <= i < |trackers| ==> trackers[i].instructor == instructors[i] && trackers[i].Valid())
    && Books(instructors, courses, Loads(trackers), Rosters(courses), SectionsOf(courses), lists0, sections0)
  }

  /**
    * Lines 85-106 for one matched pair: resolve it (the KeyError or
    * StopIteration ends the run) and commit what `Slots` allows to both
    * sides. The sections left shrink by exactly the number granted.
    */
  method CommitPair(instructors: seq<Instructor>, trackers: seq<AssignmentTracker>, courses: seq<Course>,
                    pair: (string, string), ghost lists0: seq<seq<string>>, ghost sections0: seq<nat>)
    returns (r: Result<nat>)
    requires |trackers| == |instructors| && |lists0| == |sections0| == |courses|
    requires DistinctTrackers(trackers) && DistinctRecords(courses)
    requires SolverState(instructors, trackers, courses, lists0, sections0)
    modifies trackers, courses
    ensures SolverState(instructors, trackers, courses, lists0, sections0)
    ensures r.Err? <==> Resolve(instructors, courses, pair).Err?
    ensures r.Err? ==> r.message == Resolve(instructors, courses, pair).message
    ensures r.Ok? ==> r.value == PairSlots(instructors, old(Loads(trackers)), courses, old(SectionsOf(courses)), pair)
    ensures Sum(SectionsOf(courses)) + (if r.Ok? then r.value else 0) == old(Sum(SectionsOf(courses)))
    ensures (r.Err? || r.value == 0) ==>
      Loads(trackers) == old(Loads(trackers)) && SectionsOf(courses) == old(SectionsOf(courses))
  {
    var resolved := Resolve(instructors, courses, pair);
    if resolved.Err? {
      return Err(resolved.message);
    }
    var (i, j) := resolved.value;
    var granted := GrantPair(instructors, trackers, courses, i, j, lists0, sections0);
    return Ok(granted);
  }

  /** The commit of lines 97-106 for instructor `i` and course `j`, on the solver's state. */
  method GrantPair(instructors: seq<Instructor>, trackers: seq<AssignmentTracker>, courses: seq<Course>,
                   i: nat, j: nat, ghost lists0: seq<seq<string>>, ghost sections0: seq<nat>)
    returns (granted: nat)
    requires |trackers| == |instructors| && |lists0| == |sections0| == |courses|
    requires i < |trackers| && j < |courses|
    requires DistinctTrackers(trackers) && DistinctRecords(courses)
    requires SolverState(instructors, trackers, courses, lists0, sections0)
    modifies trackers[i], courses[j]
    ensures forall k :: 0 <= k < |trackers| ==> trackers[k].instructor == instructors[k] && trackers[k].Valid()
    ensures Books(instructors, courses, Loads(trackers), Rosters(courses), SectionsOf(courses), lists0, sections0)
    ensures granted == Slots(instructors[i], old(Loads(trackers))[i], courses[j].name, old(SectionsOf(courses))[j])
    ensures Sum(SectionsOf(courses)) + granted == old(Sum(SectionsOf(courses)))
    ensures granted == 0 ==> Loads(trackers) == old(Loads(trackers)) && SectionsOf(courses) == old(SectionsOf(courses))
  {
    ghost var loads, rosters, sections := Loads(trackers), Rosters(courses), SectionsOf(courses);
    granted := GrantStep(instructors, trackers, courses, i, j);
    BooksGrant(instructors, courses, loads, rosters, sections, lists0, sections0, i, j, granted);
    SumUpdate(sections, j, sections[j] - granted);
    NoGrantNoChange(loads, i, courses[j].name, sections, j, granted);
  }

  /**
    * The grant itself: tracker `i` and course `j` take `Slots` sections,
    * every other tracker and course is untouched, and every tracker stays valid.
    */
  method GrantStep(instructors: seq<Instructor>, trackers: seq<AssignmentTracker>, courses: seq<Course>, i: nat, j: nat)
    returns (granted: nat)
    requires |trackers| == |instructors| && i < |trackers| && j < |courses|
    requires DistinctTrackers(trackers) && DistinctRecords(courses)
    requires forall k :: 0 <= k < |trackers| ==> trackers[k].instructor == instructors[k] && trackers[k].Valid()
    modifies trackers[i], courses[j]
    ensures forall k :: 0 <= k < |trackers| ==> trackers[k].instructor == instructors[k] && trackers[k].Valid()
    ensures granted == Slots(instructors[i], old(Loads(trackers))[i], courses[j].name, old(SectionsOf(courses))[j])
    ensures granted <= old(SectionsOf(courses))[j]
    ensures Loads(trackers) == old(Loads(trackers))[i := old(Loads(trackers))[i] + Repeat(courses[j].name, granted)]
    ensures Rosters(courses) == old(Rosters(courses))[j := old(Rosters(courses))[j] + Repeat(instructors[i].name, granted)]
    ensures SectionsOf(courses) == old(SectionsOf(courses))[j := old(SectionsOf(courses))[j] - granted]
  {
    ghost var loads, rosters, sections := Loads(trackers), Rosters(courses), SectionsOf(courses);
    granted := Grant(trackers[i], courses[j]);
    forall k | 0 <= k < |trackers|
      ensures trackers[k].Valid()
    {
      if k != i {
        assert trackers[k] != trackers[i];
        assert unchanged(trackers[k]);
      }
    }
    OthersUnchanged(trackers, i, loads);
    OthersUnchangedCourses(courses, j, rosters, sections);
  }

  /** Granting nothing leaves the loads and the sections as they were. */
  lemma NoGrantNoChange(loads: seq<seq<string>>, i: nat, course: string, sections: seq<nat>, j: nat, g: nat)
    requires i < |loads| && j < |sections| && g <= sections[j]
    ensures g == 0 ==> loads[i := loads[i] + Repeat(course, g)] == loads && sections[j := sections[j] - g] == sections
  {
    if g == 0 {
      assert Repeat(course, 0) == [];
      assert loads[i] + [] == loads[i];
    }
  }

  /** After a change to tracker `i` alone, the loads differ at `i` at most. */
  lemma OthersUnchanged(trackers: seq<AssignmentTracker>, i: nat, loads: seq<seq<string>>)
    requires i < |trackers| == |loads|
    requires forall k :: 0 <= k < |trackers| && k != i ==> trackers[k].assignedCourses == loads[k]
    ensures Loads(trackers) == loads[i := trackers[i].assignedCourses]
  {
  }

  /**
    * The `for instructor_name, course_name in matching` loop: commit each pair
    * in turn. `made` says whether any pair granted a section; when none did,
    * nothing changed and every pair is idle.
    */
  method CommitMatching(instructors: seq<Instructor>, trackers: seq<AssignmentTracker>, courses: seq<Course>,
                        matching: seq<(string, string)>, ghost lists0: seq<seq<string>>, ghost sections0: seq<nat>)
    returns (r: Result<bool>)
    requires |trackers| == |instructors| && |lists0| == |sections0| == |courses|
    requires DistinctTrackers(trackers) && DistinctRecords(courses)
    requires SolverState(instructors, trackers, courses, lists0, sections0)
    modifies trackers, courses
    ensures SolverState(instructors, trackers, courses, lists0, sections0)
    ensures Sum(SectionsOf(courses)) <= old(Sum(SectionsOf(courses)))
    ensures r.Ok? && r.value ==> Sum(SectionsOf(courses)) < old(Sum(SectionsOf(courses)))
    ensures r.Ok? && !r.value ==> Loads(trackers) == old(Loads(trackers)) && SectionsOf(courses) == old(SectionsOf(courses))
    ensures r.Ok? && !r.value ==> AllIdle(instructors, Loads(trackers), courses, SectionsOf(courses), matching)
    ensures r.Err? ==> exists q :: 0 <= q < |matching| && Resolve(instructors, courses, matching[q]) == Err(r.message)
  {
    ghost var loads, sections := Loads(trackers), SectionsOf(courses);
    var made := false;
    var k := 0;
    while k < |matching|
      invariant k <= |matching|
      invariant SolverState(instructors, trackers, courses, lists0, sections0)
      invariant Sum(SectionsOf(courses)) <= Sum(sections)
      invariant made ==> Sum(SectionsOf(courses)) < Sum(sections)
      invariant !made ==> Loads(trackers) == loads && SectionsOf(courses) == sections
      invariant !made ==> AllIdle(instructors, loads, courses, sections, matching[..k])
    {
      var granted := CommitPair(instructors, trackers, courses, matching[k], lists0, sections0);
      if granted.Err? {
        return Err(granted.message);
      }
      if granted.value > 0 {
        made := true;
      } else if !made {
        AllIdleSnoc(instructors, loads, courses, sections, matching, k);
      }
      k := k + 1;
    }
    assert matching[..k] == matching;
    return Ok(made);
  }

  /** Every pair of `pairs` is idle. */
  predicate AllIdle(instructors: seq<Instructor>, loads: seq<seq<string>>, courses: seq<Course>, sections: seq<nat>,
                    pairs: seq<(string, string)>)
    requires |loads| == |instructors| && |sections| == |courses|
  {
    forall p :: p in pairs ==> PairIdle(instructors, loads, courses, sections, p)
  }

  lemma AllIdleSnoc(instructors: seq<Instructor>, loads: seq<seq<string>>, courses: seq<Course>, sections: seq<nat>,
                    pairs: seq<(string, string)>, k: nat)
    requires |loads| == |instructors| && |sections| == |courses|
    requires k < |pairs|
    requires AllIdle(instructors, loads, courses, sections, pairs[..k])
    requires PairIdle(instructors, loads, courses, sections, pairs[k])
    ensures AllIdle(instructors, loads, courses, sections, pairs[..k + 1])
  {
    assert pairs[..k + 1] == pairs[..k] + [pairs[k]];
  }

  lemma SumPositive(s: seq<nat>)
    requires s != [] && s[0] > 0
    ensures Sum(s) > 0
  {
  }

  /** A graph built from some eligible instructors and open courses has nodes on both sides. */
  lemma NetworkNotEmpty(instructors: seq<Instructor>, courses: seq<Course>, weighted: bool)
    requires instructors != [] && courses != [] && courses[0].sectionsAvailable > 0
    ensures BuildNetwork(instructors, courses, weighted).instructorNodes != []
    ensures BuildNetwork(instructors, courses, weighted).sectionNodes != []
  {
    NetworkNodes(instructors, courses, weighted);
    SumPositive(SectionsOf(courses));
  }

  /**
    * The `while True` loop of lines 55-116: each round matches the eligible
    * instructors against the open courses and commits the matching; it stops
    * when either side is exhausted or a round grants nothing. Every round
    * that goes on takes at least one section, so the loop ends.
    */
  method RunRounds(instructors: seq<Instructor>, trackers: seq<AssignmentTracker>, courses: seq<Course>,
                   weighted: bool, matcher: Graph -> seq<(string, string)>,
                   ghost lists0: seq<seq<string>>, ghost sections0: seq<nat>)
    returns (r: Result<seq<Graph>>)
    requires |trackers| == |instructors| && |lists0| == |sections0| == |courses|
    requires DistinctTrackers(trackers) && DistinctRecords(courses)
    requires SolverState(instructors, trackers, courses, lists0, sections0)
    modifies trackers, courses
    ensures SolverState(instructors, trackers, courses, lists0, sections0)
    ensures r.Ok? ==> Stopped(instructors, Loads(trackers), courses, SectionsOf(courses), r.value, matcher)
  {
    var graphs: seq<Graph> := [];
    while true
      invariant SolverState(instructors, trackers, courses, lists0, sections0)
      decreases Sum(SectionsOf(courses))
    {
      var eligible := EligibleInstructors(instructors, Loads(trackers));
      var open := OpenCourses(courses);
      EligibleInstructorsSpec(instructors, Loads(trackers));
      OpenCoursesSpec(courses);
      if eligible == [] || open == [] {
        return Ok(graphs);
      }
      var graph := BuildNetwork(eligible, open, weighted);
      graphs := graphs + [graph];
      var made := CommitMatching(instructors, trackers, courses, matcher(graph), lists0, sections0);
      if made.Err? {
        return Err(made.message);
      }
      if !made.value {
        return Ok(graphs);
      }
    }
  }

  /** The length of each instructor's assigned list. */
  function AssignedCounts(instructors: seq<Instructor>): (r: seq<nat>)
    reads instructors
    ensures |r| == |instructors|
    ensures forall i :: 0 <= i < |instructors| ==> r[i] == |instructors[i].assignedCourses|
  {
    seq(|instructors|, i requires 0 <= i < |instructors| reads instructors => |instructors[i].assignedCourses|)
  }

  /** What each instructor's list gained past its first `counts[i]` entries. */
  function Added(instructors: seq<Instructor>, counts: seq<nat>): (r: seq<seq<string>>)
    requires |counts| == |instructors|
    reads instructors
    ensures |r| == |instructors|
    ensures forall i :: 0 <= i < |instructors| && counts[i] <= |instructors[i].assignedCourses| ==>
      r[i] == instructors[i].assignedCourses[counts[i]..]
  {
    seq(|instructors|, i requires 0 <= i < |instructors| reads instructors =>
      if counts[i] <= |instructors[i].assignedCourses| then instructors[i].assignedCourses[counts[i]..] else [])
  }

  /**
    * `iterative_bipartite_matching_solver(instructors, courses,
    * instructor_weighted)` with `matcher` standing for the maximum-weight
    * matching. Each course's list grows by instructor names exactly as its
    * remaining sections shrink; each instructor's new courses are catalog
    * courses within both caps; the loop ended for one of its two reasons; a
    * KeyError or StopIteration leaves the instructors untouched.
    */
  method IterativeBipartiteMatchingSolver(instructors: seq<Instructor>, courses: seq<Course>, weighted: bool,
                                          matcher: Graph -> seq<(string, string)>)
    returns (result: Result<seq<Graph>>)
    requires DistinctInstructorNames(instructors)
    requires DistinctRecords(courses)
    modifies instructors, courses
    ensures forall j :: 0 <= j < |courses| ==>
      && Conserved(old(courses[j].assignedInstructors), old(courses[j].sectionsAvailable),
                   courses[j].assignedInstructors, courses[j].sectionsAvailable)
      && AllIn(courses[j].assignedInstructors[old(|courses[j].assignedInstructors|)..], InstructorNames(instructors))
    ensures result.Err? ==> forall i :: 0 <= i < |instructors| ==>
      instructors[i].assignedCourses == old(instructors[i].assignedCourses) &&
      instructors[i].uniqueCourses == old(instructors[i].uniqueCourses)
    ensures result.Ok? ==> forall i :: 0 <= i < |instructors| ==>
      old(instructors[i].assignedCourses) <= instructors[i].assignedCourses
    ensures result.Ok? ==> forall i :: 0 <= i < |instructors| ==>
      var added := instructors[i].assignedCourses[old(|instructors[i].assignedCourses|)..];
      && |added| <= instructors[i].maxClasses
      && |Elems(added)| <= 2
      && instructors[i].uniqueCourses == old(instructors[i].uniqueCourses) + Elems(added)
      && AllIn(added, CourseNames(courses))
    ensures result.Ok? ==>
      Stopped(instructors, Added(instructors, old(AssignedCounts(instructors))), courses, SectionsOf(courses),
              result.value, matcher)
  {
    ghost var counts := AssignedCounts(instructors);
    ghost var lists0, sections0 := Rosters(courses), SectionsOf(courses);
    var trackers;
    result, trackers := RunFromScratch(instructors, courses, weighted, matcher);
    if result.Err? {
      return;
    }
    assert AssignedCounts(instructors) == counts;
    MergeRun(instructors, trackers, courses, result.value, matcher, lists0, sections0);
  }

  /** Lines 51-116: fresh, empty trackers, then the round loop. */
  method RunFromScratch(instructors: seq<Instructor>, courses: seq<Course>, weighted: bool,
                        matcher: Graph -> seq<(string, string)>)
    returns (result: Result<seq<Graph>>, trackers: seq<AssignmentTracker>)
    requires DistinctRecords(courses)
    modifies courses
    ensures |trackers| == |instructors|
    ensures fresh(Elems(trackers))
    ensures SolverState(instructors, trackers, courses, old(Rosters(courses)), old(SectionsOf(courses)))
    ensures result.Ok? ==> Stopped(instructors, Loads(trackers), courses, SectionsOf(courses), result.value, matcher)
  {
    ghost var lists0, sections0 := Rosters(courses), SectionsOf(courses);
    trackers := NewTrackers(instructors);
    assert Loads(trackers) == seq(|trackers|, _ => []);
    forall j | 0 <= j < |courses|
      ensures courses[j].assignedInstructors[|lists0[j]|..] == []
    {
    }
    result := RunRounds(instructors, trackers, courses, weighted, matcher, lists0, sections0);
  }

  /** Lines 119-121 after a finished run: each instructor gains exactly its tracker's lists. */
  method MergeRun(instructors: seq<Instructor>, trackers: seq<AssignmentTracker>, courses: seq<Course>,
                  ghost graphs: seq<Graph>, ghost matcher: Graph -> seq<(string, string)>,
                  ghost lists0: seq<seq<string>>, ghost sections0: seq<nat>)
    requires |trackers| == |instructors| && |lists0| == |sections0| == |courses|
    requires DistinctInstructorNames(instructors)
    requires SolverState(instructors, trackers, courses, lists0, sections0)
    requires Stopped(instructors, Loads(trackers), courses, SectionsOf(courses), graphs, matcher)
    modifies instructors
    ensures forall j :: 0 <= j < |courses| ==>
      && Conserved(lists0[j], sections0[j], courses[j].assignedInstructors, courses[j].sectionsAvailable)
      && AllIn(courses[j].assignedInstructors[|lists0[j]|..], InstructorNames(instructors))
    ensures Stopped(instructors, Added(instructors, old(AssignedCounts(instructors))), courses, SectionsOf(courses),
                    graphs, matcher)
    ensures forall i :: 0 <= i < |instructors| ==>
      old(instructors[i].assignedCourses) <= instructors[i].assignedCourses
    ensures forall i :: 0 <= i < |instructors| ==>
      var added := instructors[i].assignedCourses[old(|instructors[i].assignedCourses|)..];
      && |added| <= instructors[i].maxClasses
      && |Elems(added)| <= 2
      && instructors[i].uniqueCourses == old(instructors[i].uniqueCourses) + Elems(added)
      && AllIn(added, CourseNames(courses))
  {
    ghost var loads, rosters, sections := Loads(trackers), Rosters(courses), SectionsOf(courses);
    MergeTrackers(instructors, trackers);
    forall i | 0 <= i < |instructors|
      ensures loads[i] == instructors[i].assignedCourses[old(|instructors[i].assignedCourses|)..]
    {
    }
    assert Added(instructors, old(AssignedCounts(instructors))) == loads;
    assert Rosters(courses) == rosters && SectionsOf(courses) == sections;
  }
}
