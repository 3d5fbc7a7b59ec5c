/**
  * The end of `genetic_algorithm` (jobmatch/genetic_algorithm.py): the best
  * chromosome of the last population is chosen by a fitness with the default
  * penalties, and its genes are replayed onto the instructor and course
  * records.
  */
module GeneticReplay {
  import opened Wrappers
  import opened Text
  import opened Entities
  import opened LinearProgram
  import opened Genetic
  import opened GeneticFitness

  /** The final scoring uses `fitness_function`'s defaults: no non-preferred penalty, 30 per missing director section. */
  const FinalNonPreferred := 0
  const FinalDirectorPenalty := 30

  /** The fitness the final selection gives a chromosome. */
  function FinalFitness(chromosome: seq<Gene>, instructors: seq<Instructor>, courses: seq<Course>,
                        sections: seq<nat>, maxSections: map<string, int>, maxUnique: int): Result<int>
    requires |sections| == |courses|
  {
    FitnessSpec(chromosome, instructors, courses, sections, maxSections, maxUnique,
                FinalNonPreferred, FinalDirectorPenalty)
  }

  /**
    * `np.argmax(scores)`: the first index of a largest score; numpy raises
    * on an empty sequence.
    */
  method ArgMax(scores: seq<int>) returns (r: Result<nat>)
    ensures r.Err? <==> scores == []
    ensures r.Ok? ==> r.value < |scores|
    ensures r.Ok? ==> forall j :: 0 <= j < |scores| ==> scores[j] <= scores[r.value]
    ensures r.Ok? ==> forall j :: 0 <= j < r.value ==> scores[j] < scores[r.value]
  {
    if scores == [] {
      return Err("attempt to get argmax of an empty sequence");
    }
    var best := 0;
    for k := 1 to |scores|
      invariant best < k
      invariant forall j :: 0 <= j < k ==> scores[j] <= scores[best]
      invariant forall j :: 0 <= j < best ==> scores[j] < scores[best]
    {
      if scores[k] > scores[best] {
        best := k;
      }
    }
    r := Ok(best);
  }

  /** Lines 307-308: the final fitness of every chromosome, or the KeyError of the first one that raises. */
  method FinalScores(population: seq<seq<Gene>>, instructors: seq<Instructor>, courses: seq<Course>,
                     maxSections: map<string, int>, maxUnique: int)
    returns (r: Result<seq<int>>)
    ensures r.Err? ==> exists p :: (0 <= p < |population| &&
      FinalFitness(population[p], instructors, courses, SectionsOf(courses), maxSections, maxUnique).Err?)
    ensures r.Ok? ==> |r.value| == |population|
    ensures r.Ok? ==> forall p :: 0 <= p < |population| ==>
      FinalFitness(population[p], instructors, courses, SectionsOf(courses), maxSections, maxUnique) == Ok(r.value[p])
  {
    ghost var sections := SectionsOf(courses);
    var scores := [];
    for p := 0 to |population|
      invariant |scores| == p
      invariant forall q :: 0 <= q < p ==>
        FinalFitness(population[q], instructors, courses, sections, maxSections, maxUnique) == Ok(scores[q])
    {
      var score := Fitness(population[p], instructors, courses, maxSections, maxUnique,
                           FinalNonPreferred, FinalDirectorPenalty);
      if score.Err? {
        return Err(KeyError);
      }
      scores := scores + [score.value];
    }
    r := Ok(scores);
  }

  /**
    * Lines 307-309: the chromosome of the first best final fitness. It fails
    * when a chromosome's fitness raises or the population is empty.
    */
  method SelectBest(population: seq<seq<Gene>>, instructors: seq<Instructor>, courses: seq<Course>,
                    maxSections: map<string, int>, maxUnique: int)
    returns (r: Result<seq<Gene>>)
    ensures r.Err? <==> population == [] || (exists p :: (0 <= p < |population| &&
      FinalFitness(population[p], instructors, courses, SectionsOf(courses), maxSections, maxUnique).Err?))
    ensures r.Ok? ==> exists b :: (0 <= b < |population| && r.value == population[b] &&
      var best := FinalFitness(population[b], instructors, courses, SectionsOf(courses), maxSections, maxUnique);
      && best.Ok?
      && (forall p :: 0 <= p < |population| ==>
            var f := FinalFitness(population[p], instructors, courses, SectionsOf(courses), maxSections, maxUnique);
            f.Ok? && f.value <= best.value)
      && (forall p :: 0 <= p < b ==>
            FinalFitness(population[p], instructors, courses, SectionsOf(courses), maxSections, maxUnique).value
            < best.value))
  {
    var scores := FinalScores(population, instructors, courses, maxSections, maxUnique);
    if scores.Err? {
      return Err(KeyError);
    }
    var b := ArgMax(scores.value);
    if b.Err? {
      return Err(b.message);
    }
    r := Ok(population[b.value]);
  }

  /**
    * One gene of the replay, on the instructors' lists `loads` and the
    * courses' lists `rosters`: both names are looked up in the dictionaries
    * of lines 312-313, which keep the last record of a name (a KeyError when
    * either is unknown) and, when the instructor still has room under
    * `max_classes`, the course joins the instructor's list and the instructor
    * the course's. A full instructor's gene is dropped.
    */
  function ReplayStep(instructors: seq<Instructor>, courses: seq<Course>, loads: seq<seq<string>>,
                      rosters: seq<seq<string>>, gene: Gene): (r: Result<(seq<seq<string>>, seq<seq<string>>)>)
    requires |loads| == |instructors| && |rosters| == |courses|
    ensures r.Ok? <==> (LastCourse(courses, Head(gene.1, Sep)).Some?
                     && LastInstructor(instructors, Head(gene.0, Sep)).Some?)
    ensures r.Ok? ==> |r.value.0| == |instructors| && |r.value.1| == |courses|
  {
    var courseName, instructorName := Head(gene.1, Sep), Head(gene.0, Sep);
    match LastCourse(courses, courseName)
    case None => Err(KeyError)
    case Some(j) =>
      match LastInstructor(instructors, instructorName)
      case None => Err(KeyError)
      case Some(i) =>
        if |loads[i]| < instructors[i].maxClasses
        then Ok((loads[i := loads[i] + [courseName]], rosters[j := rosters[j] + [instructorName]]))
        else Ok((loads, rosters))
  }

  /**
    * Lines 315-331 on values: the instructors start empty, the courses keep
    * the lists `rosters0` they had, and the genes are replayed in order; the
    * first gene with an unknown name raises.
    */
  function Replayed(instructors: seq<Instructor>, courses: seq<Course>, rosters0: seq<seq<string>>,
                    genes: seq<Gene>): (r: Result<(seq<seq<string>>, seq<seq<string>>)>)
    requires |rosters0| == |courses|
    ensures r.Ok? ==> |r.value.0| == |instructors| && |r.value.1| == |courses|
  {
    if genes == [] then Ok((Repeat([], |instructors|), rosters0))
    else
      var n := |genes| - 1;
      match Replayed(instructors, courses, rosters0, genes[..n])
      case Err(e) => Err(e)
      case Ok(state) => ReplayStep(instructors, courses, state.0, state.1, genes[n])
  }

  /** The replay raises exactly when some gene names an unknown course or instructor. */
  lemma {:induction false} ReplayedFails(instructors: seq<Instructor>, courses: seq<Course>,
                                         rosters0: seq<seq<string>>, genes: seq<Gene>)
    requires |rosters0| == |courses|
    ensures Replayed(instructors, courses, rosters0, genes).Err? <==>
      exists k :: 0 <= k < |genes| &&
        (LastCourse(courses, Head(genes[k].1, Sep)).None? || LastInstructor(instructors, Head(genes[k].0, Sep)).None?)
  {
    if genes != [] {
      var n := |genes| - 1;
      ReplayedFails(instructors, courses, rosters0, genes[..n]);
      assert forall k :: 0 <= k < n ==> genes[..n][k] == genes[k];
    }
  }

  /** No instructor ends with more than `max_classes` sections, whatever the chromosome. */
  lemma {:induction false} ReplayedWithinMaxClasses(instructors: seq<Instructor>, courses: seq<Course>,
                                                    rosters0: seq<seq<string>>, genes: seq<Gene>)
    requires |rosters0| == |courses|
    requires Replayed(instructors, courses, rosters0, genes).Ok?
    ensures var loads := Replayed(instructors, courses, rosters0, genes).value.0;
            forall i :: 0 <= i < |instructors| ==> |loads[i]| <= instructors[i].maxClasses
  {
    if genes != [] {
      ReplayedWithinMaxClasses(instructors, courses, rosters0, genes[..|genes| - 1]);
    }
  }

  /** The number of names on each course's list. */
  function RosterSizes(rosters: seq<seq<string>>): (r: seq<nat>)
    ensures |r| == |rosters| && forall j :: 0 <= j < |rosters| ==> r[j] == |rosters[j]|
  {
    seq(|rosters|, j requires 0 <= j < |rosters| => |rosters[j]|)
  }

  /**
    * Every kept gene lands on both sides: the courses' lists only grow, and
    * by as many names in all as the instructors' lists hold.
    */
  lemma {:induction false} ReplayedBalances(instructors: seq<Instructor>, courses: seq<Course>,
                                            rosters0: seq<seq<string>>, genes: seq<Gene>)
    requires |rosters0| == |courses|
    requires Replayed(instructors, courses, rosters0, genes).Ok?
    ensures Balanced(rosters0, Replayed(instructors, courses, rosters0, genes).value)
  {
    if genes == [] {
      SumZeros(LoadSizes(Repeat([], |instructors|)));
    } else {
      var n := |genes| - 1;
      ReplayedBalances(instructors, courses, rosters0, genes[..n]);
      var state := Replayed(instructors, courses, rosters0, genes[..n]).value;
      StepBalances(instructors, courses, rosters0, state, genes[n]);
    }
  }

  /** The courses' lists only grew from `rosters0`, by as many names in all as the instructors' lists hold. */
  predicate Balanced(rosters0: seq<seq<string>>, state: (seq<seq<string>>, seq<seq<string>>)) {
    && |state.1| == |rosters0|
    && (forall j :: 0 <= j < |rosters0| ==> rosters0[j] <= state.1[j])
    && Sum(LoadSizes(state.0)) + Sum(RosterSizes(rosters0)) == Sum(RosterSizes(state.1))
  }

  /** One replayed gene keeps the lists balanced. */
  lemma StepBalances(instructors: seq<Instructor>, courses: seq<Course>, rosters0: seq<seq<string>>,
                     state: (seq<seq<string>>, seq<seq<string>>), gene: Gene)
    requires |state.0| == |instructors| && |state.1| == |courses|
    requires Balanced(rosters0, state)
    requires ReplayStep(instructors, courses, state.0, state.1, gene).Ok?
    ensures Balanced(rosters0, ReplayStep(instructors, courses, state.0, state.1, gene).value)
  {
    var j := LastCourse(courses, Head(gene.1, Sep)).value;
    var i := LastInstructor(instructors, Head(gene.0, Sep)).value;
    if |state.0[i]| < instructors[i].maxClasses {
      var next := ReplayStep(instructors, courses, state.0, state.1, gene).value;
      SumUpdate(LoadSizes(state.0), i, |state.0[i]| + 1);
      assert LoadSizes(next.0) == LoadSizes(state.0)[i := |state.0[i]| + 1];
      SumUpdate(RosterSizes(state.1), j, |state.1[j]| + 1);
      assert RosterSizes(next.1) == RosterSizes(state.1)[j := |state.1[j]| + 1];
    }
  }

  /**
    * Step 1's loads where the replay puts them: the load of a name (held in
    * the slot of its first instructor) goes to the last instructor bearing
    * the name, the record `instructor_lookup` keeps; the others stay empty.
    */
  function HeldLoads(instructors: seq<Instructor>, loads: seq<seq<string>>): (r: seq<seq<string>>)
    requires |loads| == |instructors|
    ensures |r| == |instructors|
  {
    seq(|instructors|, i requires 0 <= i < |instructors| =>
      if LastInstructor(instructors, instructors[i].name) == Some(i)
      then loads[FindInstructor(instructors, instructors[i].name).value]
      else [])
  }

  /** With distinct names every record holds its own load. */
  lemma HeldLoadsDistinct(instructors: seq<Instructor>, loads: seq<seq<string>>)
    requires |loads| == |instructors| && DistinctInstructorNames(instructors)
    ensures HeldLoads(instructors, loads) == loads
  {
    forall i | 0 <= i < |instructors|
      ensures HeldLoads(instructors, loads)[i] == loads[i]
    {
      LastInstructorIsFirst(instructors, instructors[i].name);
    }
  }

  /** Filing one more course under the name's first slot adds it to the list of the name's last record. */
  lemma HeldLoadsStep(instructors: seq<Instructor>, loads: seq<seq<string>>, f: nat, l: nat, course: string)
    requires |loads| == |instructors| && f < |instructors| && l < |instructors|
    requires FindInstructor(instructors, instructors[f].name) == Some(f)
    requires LastInstructor(instructors, instructors[f].name) == Some(l)
    ensures var held := HeldLoads(instructors, loads);
            HeldLoads(instructors, loads[f := loads[f] + [course]]) == held[l := held[l] + [course]]
  {
    var held, held' := HeldLoads(instructors, loads), HeldLoads(instructors, loads[f := loads[f] + [course]]);
    var name := instructors[f].name;
    forall i | 0 <= i < |instructors|
      ensures held'[i] == held[l := held[l] + [course]][i]
    {
      if LastInstructor(instructors, instructors[i].name) == Some(i) {
        var first := FindInstructor(instructors, instructors[i].name).value;
        assert held'[i] == loads[f := loads[f] + [course]][first];
        assert held[i] == loads[first];
        if i == l {
          assert first == f;
        } else {
          assert instructors[i].name != name;
          assert first != f;
        }
      } else {
        assert i != l;
      }
    }
  }

  /**
    * A chromosome naming known courses, whose load for every name fits the
    * `max_classes` of the name's last record, is replayed whole: the
    * instructors' lists are exactly the loads its fitness scored, each with
    * the record the lookups keep.
    */
  lemma {:induction false} ReplayedAsScored(instructors: seq<Instructor>, courses: seq<Course>,
                                            rosters0: seq<seq<string>>, genes: seq<Gene>)
    requires |rosters0| == |courses|
    requires forall k :: 0 <= k < |genes| ==> LastCourse(courses, Head(genes[k].1, Sep)).Some?
    requires Loads(instructors, genes).Ok?
    requires forall i :: 0 <= i < |instructors| ==>
      |Loads(instructors, genes).value[i]| <= instructors[Holder(instructors, i)].maxClasses
    ensures Replayed(instructors, courses, rosters0, genes).Ok?
    ensures Replayed(instructors, courses, rosters0, genes).value.0 == HeldLoads(instructors, Loads(instructors, genes).value)
  {
    if genes == [] {
      assert HeldLoads(instructors, Repeat([], |instructors|)) == Repeat([], |instructors|);
    } else {
      var n := |genes| - 1;
      assert forall k :: 0 <= k < n ==> genes[..n][k] == genes[k];
      var before := Loads(instructors, genes[..n]).value;
      var f := LoadsLast(instructors, genes);
      var course := Head(genes[n].1, Sep);
      assert Loads(instructors, genes).value == before[f := before[f] + [course]];
      assert forall i' :: 0 <= i' < |instructors| ==> |before[i']| <= |Loads(instructors, genes).value[i']|;
      ReplayedAsScored(instructors, courses, rosters0, genes[..n]);
      var l := Holder(instructors, f);
      assert KeySlot(instructors, f);
      HeldLoadsStep(instructors, before, f, l, course);
    }
  }

  /**
    * Lines 315-317: every instructor's lists are emptied. The courses keep
    * theirs.
    */
  method ResetInstructors(instructors: seq<Instructor>)
    modifies instructors
    ensures forall i :: 0 <= i < |instructors| ==>
      instructors[i].assignedCourses == [] && instructors[i].uniqueCourses == {}
  {
    for k := 0 to |instructors|
      invariant forall i :: 0 <= i < k ==> instructors[i].assignedCourses == [] && instructors[i].uniqueCourses == {}
    {
      instructors[k].assignedCourses := [];
      instructors[k].uniqueCourses := {};
    }
  }

  /** Each instructor's set of courses is the set of its list. */
  predicate UniqueMatches(instructors: seq<Instructor>)
    reads instructors
  {
    forall i :: 0 <= i < |instructors| ==> instructors[i].uniqueCourses == Elems(instructors[i].assignedCourses)
  }

  /** Line 330: the instructor of index `i`, not yet full, takes one section of `course`. */
  method TakeSection(instructors: seq<Instructor>, i: nat, course: string, ghost loads: seq<seq<string>>)
    requires i < |instructors| && DistinctInstructorRecords(instructors)
    requires AssignedLists(instructors) == loads && UniqueMatches(instructors)
    requires |loads[i]| < instructors[i].maxClasses
    modifies instructors[i]
    ensures AssignedLists(instructors) == loads[i := loads[i] + [course]]
    ensures UniqueMatches(instructors)
  {
    assert forall k :: 0 <= k < |instructors| && k != i ==> instructors[k] != instructors[i];
    instructors[i].AssignCourse(course, 1);
    assert Repeat(course, 1) == [course];
  }

  /** Line 331: the course of index `j` lists one more instructor; its remaining count stays. */
  method JoinRoster(courses: seq<Course>, j: nat, instructor: string, ghost rosters: seq<seq<string>>)
    requires j < |courses| && DistinctRecords(courses) && Rosters(courses) == rosters
    modifies courses[j]
    ensures Rosters(courses) == rosters[j := rosters[j] + [instructor]]
    ensures SectionsOf(courses) == old(SectionsOf(courses))
  {
    assert forall k :: 0 <= k < |courses| && k != j ==> courses[k] != courses[j];
    courses[j].assignedInstructors := courses[j].assignedInstructors + [instructor];
  }

  /** Lines 319-329: one gene replayed on the records, as `ReplayStep` says. */
  method ApplyGene(gene: Gene, instructors: seq<Instructor>, courses: seq<Course>,
                   ghost loads: seq<seq<string>>, ghost rosters: seq<seq<string>>)
    returns (r: Result<()>)
    requires DistinctInstructorRecords(instructors) && DistinctRecords(courses)
    requires AssignedLists(instructors) == loads && Rosters(courses) == rosters
    requires UniqueMatches(instructors)
    modifies instructors, courses
    ensures var next := ReplayStep(instructors, courses, loads, rosters, gene);
            && (r.Ok? <==> next.Ok?)
            && (r.Ok? ==> AssignedLists(instructors) == next.value.0 && Rosters(courses) == next.value.1)
            && (r.Err? ==> AssignedLists(instructors) == loads && Rosters(courses) == rosters)
    ensures UniqueMatches(instructors)
    ensures SectionsOf(courses) == old(SectionsOf(courses))
  {
    var courseName, instructorName := Head(gene.1, Sep), Head(gene.0, Sep);
    var j := LastCourse(courses, courseName);
    if j.None? {
      return Err(KeyError);
    }
    var i := LastInstructor(instructors, instructorName);
    if i.None? {
      return Err(KeyError);
    }
    if |instructors[i.value].assignedCourses| < instructors[i.value].maxClasses {
      TakeSection(instructors, i.value, courseName, loads);
      JoinRoster(courses, j.value, instructors[i.value].name, rosters);
    }
    r := Ok(());
  }

  /**
    * Lines 319-331: the genes replayed in order onto emptied instructors, as
    * `Replayed` says; a KeyError stops the replay at the gene that raises,
    * with the records as the genes before it left them.
    */
  method ApplyGenes(best: seq<Gene>, instructors: seq<Instructor>, courses: seq<Course>,
                    ghost rosters0: seq<seq<string>>)
    returns (r: Result<()>)
    requires DistinctInstructorRecords(instructors) && DistinctRecords(courses)
    requires AssignedLists(instructors) == Repeat([], |instructors|) && Rosters(courses) == rosters0
    requires UniqueMatches(instructors)
    modifies instructors, courses
    ensures var spec := Replayed(instructors, courses, rosters0, best);
            && (r.Ok? <==> spec.Ok?)
            && (r.Ok? ==> AssignedLists(instructors) == spec.value.0 && Rosters(courses) == spec.value.1)
    ensures r.Err? ==> StoppedAt(instructors, courses, rosters0, best)
    ensures forall i :: 0 <= i < |instructors| ==> |instructors[i].assignedCourses| <= instructors[i].maxClasses
    ensures UniqueMatches(instructors)
    ensures SectionsOf(courses) == old(SectionsOf(courses))
  {
    for k := 0 to |best|
      invariant Replayed(instructors, courses, rosters0, best[..k]).Ok?
      invariant AssignedLists(instructors) == Replayed(instructors, courses, rosters0, best[..k]).value.0
      invariant Rosters(courses) == Replayed(instructors, courses, rosters0, best[..k]).value.1
      invariant UniqueMatches(instructors)
      invariant SectionsOf(courses) == old(SectionsOf(courses))
    {
      ghost var state := Replayed(instructors, courses, rosters0, best[..k]).value;
      assert best[..k + 1][..k] == best[..k];
      r := ApplyGene(best[k], instructors, courses, state.0, state.1);
      if r.Err? {
        ReplayedWithinMaxClasses(instructors, courses, rosters0, best[..k]);
        ReplayedErr(instructors, courses, rosters0, best, k + 1);
        assert StoppedAfter(instructors, courses, rosters0, best, k);
        return;
      }
    }
    assert best[..|best|] == best;
    ReplayedWithinMaxClasses(instructors, courses, rosters0, best);
    r := Ok(());
  }

  /**
    * The records hold what the first `k` genes replay to, and gene `k` is the
    * one that raises: the state a KeyError leaves.
    */
  ghost predicate StoppedAfter(instructors: seq<Instructor>, courses: seq<Course>, rosters0: seq<seq<string>>,
                               genes: seq<Gene>, k: nat)
    requires |rosters0| == |courses|
    reads instructors, courses
  {
    && k < |genes|
    && Replayed(instructors, courses, rosters0, genes[..k]).Ok?
    && Replayed(instructors, courses, rosters0, genes[..k + 1]).Err?
    && AssignedLists(instructors) == Replayed(instructors, courses, rosters0, genes[..k]).value.0
    && Rosters(courses) == Replayed(instructors, courses, rosters0, genes[..k]).value.1
  }

  /** The replay stopped at some gene that raised, keeping what the genes before it replayed to. */
  ghost predicate StoppedAt(instructors: seq<Instructor>, courses: seq<Course>, rosters0: seq<seq<string>>,
                            genes: seq<Gene>)
    requires |rosters0| == |courses|
    reads instructors, courses
  {
    exists k :: StoppedAfter(instructors, courses, rosters0, genes, k)
  }

  /** Once a prefix of the genes raises, so does every longer one. */
  lemma {:induction false} ReplayedErr(instructors: seq<Instructor>, courses: seq<Course>,
                                       rosters0: seq<seq<string>>, genes: seq<Gene>, k: nat)
    requires |rosters0| == |courses| && k <= |genes|
    requires Replayed(instructors, courses, rosters0, genes[..k]).Err?
    ensures Replayed(instructors, courses, rosters0, genes).Err?
  {
    if k < |genes| {
      var n := |genes| - 1;
      assert genes[..n][..k] == genes[..k];
      ReplayedErr(instructors, courses, rosters0, genes[..n], k);
    } else {
      assert genes[..k] == genes;
    }
  }

  /**
    * Lines 315-331: the instructors are emptied and the best chromosome's
    * genes replayed in order, as `Replayed` says; a KeyError stops the
    * replay at the gene that raises, with the records as the genes before
    * it left them. The courses' remaining section counts are not touched,
    * and no instructor ends over `max_classes`.
    */
  method Replay(best: seq<Gene>, instructors: seq<Instructor>, courses: seq<Course>) returns (r: Result<()>)
    requires DistinctInstructorRecords(instructors) && DistinctRecords(courses)
    modifies instructors, courses
    ensures var spec := Replayed(instructors, courses, old(Rosters(courses)), best);
            && (r.Ok? <==> spec.Ok?)
            && (r.Ok? ==> AssignedLists(instructors) == spec.value.0 && Rosters(courses) == spec.value.1)
    ensures r.Err? ==> StoppedAt(instructors, courses, old(Rosters(courses)), best)
    ensures forall i :: 0 <= i < |instructors| ==> |instructors[i].assignedCourses| <= instructors[i].maxClasses
    ensures UniqueMatches(instructors)
    ensures SectionsOf(courses) == old(SectionsOf(courses))
  {
    ResetInstructors(instructors);
    assert AssignedLists(instructors) == Repeat([], |instructors|);
    r := ApplyGenes(best, instructors, courses, Rosters(courses));
  }
}
