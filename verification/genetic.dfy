/**
  * jobmatch/genetic_algorithm.py: the genetic algorithm's operators.
  *
  * A chromosome is a list of genes `(instructor_section, course_section)`,
  * both ids of the form `f"{name}_section_{number}"`; the operators read a
  * gene's names back with `id.split('_section_')[0]`. Every random draw is a
  * parameter: a draw `d` among `n` choices stands for the choice `d % n`, so
  * each outcome of the random generator is some value of the parameter.
  */
module Genetic {
  import opened Wrappers
  import opened Text
  import opened Entities
  import opened LinearProgram

  /** `(instructor_section, course_section)`. */
  type Gene = (string, string)

  const Sep := "_section_"

  const KeyError := "KeyError"

  /** Whether `sep` occurs in `s` starting at index `k`. */
  predicate OccursAt(s: string, sep: string, k: nat) {
    k + |sep| <= |s| && s[k..k + |sep|] == sep
  }

  /**
    * `s.split(sep)[0]`: the text before the first occurrence of `sep`, or all
    * of `s` when it has none.
    */
  function Head(s: string, sep: string): (r: string)
    requires sep != ""
    ensures r <= s
    ensures forall k :: 0 <= k < |r| ==> !OccursAt(s, sep, k)
    ensures r == s || OccursAt(s, sep, |r|)
  {
    HeadFrom(s, sep, 0)
  }

  /** The scan behind `Head`, with no occurrence before `k`. */
  function HeadFrom(s: string, sep: string, k: nat): (r: string)
    requires sep != "" && k <= |s|
    requires forall q :: 0 <= q < k ==> !OccursAt(s, sep, q)
    ensures k <= |r| && r <= s
    ensures forall q :: 0 <= q < |r| ==> !OccursAt(s, sep, q)
    ensures r == s || OccursAt(s, sep, |r|)
    decreases |s| - k
  {
    if k == |s| then s
    else if OccursAt(s, sep, k) then s[..k]
    else HeadFrom(s, sep, k + 1)
  }

  /** The three facts of `Head`'s contract single out its result. */
  lemma HeadUnique(s: string, sep: string, r: string)
    requires sep != ""
    requires r <= s
    requires forall k :: 0 <= k < |r| ==> !OccursAt(s, sep, k)
    requires r == s || OccursAt(s, sep, |r|)
    ensures Head(s, sep) == r
  {
    var h := Head(s, sep);
    assert |h| == |r|;
    assert h == s[..|h|] && r == s[..|r|];
  }

  /** A name in which the separator does not start, not even running into a separator that follows it. */
  predicate SeparatorFree(name: string) {
    forall k :: 0 <= k < |name| ==> !OccursAt(name + Sep, Sep, k)
  }

  /** Every separator starts with an underscore, so a name without one is separator-free. */
  lemma UnderscoreFreeSeparatorFree(name: string)
    requires forall k :: 0 <= k < |name| ==> name[k] != '_'
    ensures SeparatorFree(name)
  {
    forall k | 0 <= k < |name|
      ensures !OccursAt(name + Sep, Sep, k)
    {
      assert (name + Sep)[k] == name[k];
    }
  }

  /** `f"{name}_section_{n}".split('_section_')[0] == name`: a section id gives back its owner. */
  lemma HeadOfSectionName(name: string, n: nat)
    requires SeparatorFree(name)
    ensures Head(SectionName(name, n), Sep) == name
  {
    var s := SectionName(name, n);
    assert s == (name + Sep) + NatToString(n);
    forall k | 0 <= k < |name|
      ensures !OccursAt(s, Sep, k)
    {
      if OccursAt(s, Sep, k) {
        assert s[k..k + |Sep|] == (name + Sep)[k..k + |Sep|];
        assert OccursAt(name + Sep, Sep, k);
      }
    }
    assert s[|name|..|name| + |Sep|] == Sep;
    HeadUnique(s, Sep, name);
  }

  /** `s[:k]`, which stops at the end of `s`. */
  function Take<T>(s: seq<T>, k: nat): (r: seq<T>)
    ensures r <= s && |r| == if k <= |s| then k else |s|
  {
    if k <= |s| then s[..k] else s
  }

  /** `s[k:]`, empty past the end of `s`. */
  function Drop<T>(s: seq<T>, k: nat): (r: seq<T>)
    ensures Take(s, k) + r == s
  {
    if k <= |s| then s[k..] else []
  }

  /**
    * The children of a cut after `k` genes: `p1[:k] + p2[k:]` and
    * `p2[:k] + p1[k:]`. Between them they hold exactly the parents' genes;
    * for parents of one length each child has that length and, at every
    * position, the two children hold the two parents' genes there.
    */
  function CrossAt(p1: seq<Gene>, p2: seq<Gene>, k: nat): (children: (seq<Gene>, seq<Gene>))
    ensures multiset(children.0) + multiset(children.1) == multiset(p1) + multiset(p2)
    ensures |p1| == |p2| ==> |children.0| == |p1| && |children.1| == |p1|
    ensures |p1| == |p2| ==>
      forall i :: 0 <= i < |p1| ==>
        || (children.0[i] == p1[i] && children.1[i] == p2[i])
        || (children.0[i] == p2[i] && children.1[i] == p1[i])
  {
    var a1, b1, a2, b2 := Take(p1, k), Drop(p1, k), Take(p2, k), Drop(p2, k);
    assert multiset(a1) + multiset(b1) == multiset(p1) by { assert a1 + b1 == p1; }
    assert multiset(a2) + multiset(b2) == multiset(p2) by { assert a2 + b2 == p2; }
    (a1 + b2, a2 + b1)
  }

  /** Crossing the children again at the same cut gives back the parents. */
  lemma CrossAtUndo(p1: seq<Gene>, p2: seq<Gene>, k: nat)
    requires |p1| == |p2|
    ensures CrossAt(CrossAt(p1, p2, k).0, CrossAt(p1, p2, k).1, k) == (p1, p2)
  {
    var (c1, c2) := CrossAt(p1, p2, k);
    if k <= |p1| {
      assert Take(c1, k) == Take(p1, k) && Drop(c2, k) == Drop(p1, k);
      assert Take(c2, k) == Take(p2, k) && Drop(c1, k) == Drop(p2, k);
    }
  }

  /**
    * `crossover(parent1, parent2)`, the cut point `random.randint(0, len(parent1) - 1)`
    * being `draw % len(parent1)`; `randint` raises on an empty first parent.
    */
  function Crossover(p1: seq<Gene>, p2: seq<Gene>, draw: nat): (r: Result<(seq<Gene>, seq<Gene>)>)
    ensures r.Err? <==> p1 == []
    ensures r.Ok? ==> multiset(r.value.0) + multiset(r.value.1) == multiset(p1) + multiset(p2)
    ensures r.Ok? && |p1| == |p2| ==> |r.value.0| == |p1| && |r.value.1| == |p1|
    ensures r.Ok? ==> exists k :: 0 <= k < |p1| && r.value == CrossAt(p1, p2, k)
  {
    if p1 == [] then Err("empty range for randint")
    else Ok(CrossAt(p1, p2, draw % |p1|))
  }

  /**
    * A chromosome whose gene `g` now has the instructor section `id`: nothing
    * else changes, not even the gene's course section.
    */
  function Mutated(c: seq<Gene>, g: nat, id: string): (r: seq<Gene>)
    requires g < |c|
    ensures |r| == |c|
    ensures forall k :: 0 <= k < |c| && k != g ==> r[k] == c[k]
    ensures r[g].0 == id && r[g].1 == c[g].1
  {
    c[g := (id, c[g].1)]
  }

  /**
    * `mutate(chromosome, instructors)`, in place: gene `geneDraw % len` gets a
    * random section `1 + sectionDraw % max_classes` of instructor
    * `instructorDraw % len(instructors)`. `randint` raises on an empty
    * chromosome or an instructor with no classes, `random.choice` on no
    * instructors; a raised error leaves the chromosome as it was.
    */
  method Mutate(chromosome: array<Gene>, instructors: seq<Instructor>, geneDraw: nat, instructorDraw: nat,
                sectionDraw: nat) returns (r: Result<()>)
    modifies chromosome
    ensures r.Err? <==>
      || chromosome.Length == 0
      || instructors == []
      || instructors[instructorDraw % |instructors|].maxClasses == 0
    ensures r.Err? ==> chromosome[..] == old(chromosome[..])
    ensures r.Ok? ==>
      var owner := instructors[instructorDraw % |instructors|];
      chromosome[..] == Mutated(old(chromosome[..]), geneDraw % chromosome.Length,
                                SectionName(owner.name, 1 + sectionDraw % owner.maxClasses))
  {
    if chromosome.Length == 0 {
      return Err("empty range for randint");
    }
    var g := geneDraw % chromosome.Length;
    if instructors == [] {
      return Err("cannot choose from an empty sequence");
    }
    var owner := instructors[instructorDraw % |instructors|];
    if owner.maxClasses == 0 {
      return Err("empty range for randint");
    }
    var id := SectionName(owner.name, 1 + sectionDraw % owner.maxClasses);
    chromosome[g] := (id, chromosome[g].1);
    r := Ok(());
  }
}
